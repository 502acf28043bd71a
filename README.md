# Credit calculator bot: a verified model

This project models the two parts of a Telegram loan calculator bot that carry logic:

- **The amortisation engine** (`calculator.py`). `get_monthly_payment` turns an annual
  percentage rate into a monthly rate `r = rate / 12 / 100` and applies the annuity formula
  `A * r * (1+r)^n / ((1+r)^n - 1)`. `get_credit_details` walks the months of the term. Each
  month it charges interest on the outstanding balance and splits the fixed payment into
  interest and principal. It then lowers the balance, appends one record and adds the payment
  to the running total. At the end it returns the total paid, the overpayment
  (total − amount) and the records.
- **The conversation** (`tg_calculator_bot.py`). Each handler reads one message or button
  press, updates the per-user dictionary `user_data` and returns the next state: ASK_AMOUNT,
  ASK_TERM, ASK_RATE, SHOW_RESULT or END. Before the payment table is sent as MarkdownV2, it
  goes through a chain of three `str.replace` calls that put a backslash before `_`, `*` and
  `` ` ``.

The engine is modelled over exact `real` arithmetic, with exponentiation written as a
recursive `Pow`. Python would raise `ZeroDivisionError` when `(1+r)^n = 1`, which happens for
a term of 0 months or a rate of 0. The model returns `Failure(ZeroDivision)` in that case, so
no precondition excludes those inputs. `get_credit_details` is a method with a `for` loop. It
is proved against specification functions: `Balance` (the recurrence), `Schedule` (the
records of the first months) and `TotalPaid` (the running total), with `Interest` and
`Principal` for the split of each payment. The annuity properties are proved about those functions.
The main ones are the closed form of the balance, the balance being exactly 0 after the last
month, the principal part being positive and growing, and the principal parts summing to the
amount.

The conversation is modelled as a class `Session`. It has a `state` field and a
`userData: map<string, Value>` field, and one method per handler that updates `userData` and
returns an `Outcome`: either the next state, or the exception the handler raises
(`KeyError`, `TypeError`, `ZeroDivisionError`). `Dispatch` models the routing table of the
`ConversationHandler` (lines 175-188 of `tg_calculator_bot.py`):

- `/start` outside a conversation goes to `start`.
- `/start` inside a conversation goes to `fallback`.
- Plain text goes to the handler for the current question.
- The three buttons are only handled on the results screen.
- Anything else is ignored.

If a handler raises, the state is kept. `Dispatch` preserves an invariant (`Consistent`)
saying which keys are stored in each state. As long as the user's data is changed only by
this one conversation, no handler raises `KeyError` or `TypeError`. The only exception is
`ZeroDivisionError` from the rate handler, and it happens exactly when the annuity formula
divides by zero on the stored amount and term. The bot does no range checks: the amount and
term accept every digit string, including `0`. A rate of `0` raises and leaves the
conversation at the rate question, where a positive rate still succeeds when the stored term
is positive (`Bot.RateSucceedsOnPositive`). A stored term of `0` is worse: every rate typed
after it raises again, until `/start` ends the conversation (`Bot.RateFailsOnZero`).

`str.isdigit` is modelled as "non-empty and only ASCII `0`–`9`" (`BotText.IsDigits`), and
`int(text)` as a decimal parser (`BotText.ParseNat`), proved the inverse of decimal spelling.

Files: `wrappers.dfy` (Option/Result), `calculator.dfy` (module `Calculator`),
`bot_text.dfy` (module `BotText`: digit check, integer parse, escaping), `bot.dfy` (module
`Bot`: states, stored values, handlers, routing).

## Model

| member | source | states |
|---|---|---|
| `Calculator.MonthlyRate` | calculator.py:6 | the monthly rate times 1200 is the annual percentage rate; it is positive exactly when the annual rate is (both engine functions use this one definition, lines 6 and 15) |
| `Calculator.MonthlyPayment` | calculator.py:4-7 | fails with a division by zero exactly when `(1+r)^n = 1` |
| `Calculator.PaymentEquation` | calculator.py:7 | whenever the payment `p` is defined it satisfies the annuity equation `p * ((1+r)^n - 1) = A * r * (1+r)^n` |
| `Calculator.PaymentUndefined` | calculator.py:7 | a term of 0 months or a rate of 0 makes the formula divide by zero |
| `Calculator.PaymentDefined` | calculator.py:7 | a positive rate and a term of at least one month always give a payment |
| `Calculator.PaymentExceedsFirstInterest` | calculator.py:7 | for a positive amount and rate the payment is larger than the first month's interest `A * r`, which is positive |
| `Calculator.TwelveMonthExample` | calculator.py:7 | 100000 at 12% for 12 months gives a payment in [8884.875, 8884.885), i.e. 8884.88 to the cent |
| `Calculator.NextBalance` | calculator.py:27-31 | one month of the loop: interest `b * r` is added to the balance and the payment taken off |
| `Calculator.Balance` | calculator.py:25-31 | the balance after `k` months, starting from the amount and applying `NextBalance` once per month |
| `Calculator.BalanceClosedForm` | calculator.py:31 | after `k` months of `b := b + b*r - p`, `r * b_k = A*r*(1+r)^k - p*((1+r)^k - 1)` |
| `Calculator.PrincipalGrowth` | calculator.py:29-31 | the principal part of month `k+1` is `(1+r)^k` times the first month's principal part |
| `Calculator.BalanceAtEndOfTerm` | calculator.py:25-31 | whenever the payment is defined, the balance after the last month of the term is exactly 0 |
| `Calculator.MonthSplit` | calculator.py:27-31 | each month interest is the previous balance times the rate, interest plus principal is the payment, and the new balance is the old one minus the principal |
| `Calculator.PrincipalPositive` | calculator.py:27-31 | for a positive amount and rate the principal part is positive every month and the balance strictly drops |
| `Calculator.BalanceDecreasing` | calculator.py:25-31 | for a positive amount and rate the balance after month `j` is below the balance after any earlier month `i` |
| `Calculator.BalanceWithinTerm` | calculator.py:25-31 | within the term the balance stays between 0 and the amount, and is 0 only after the last month |
| `Calculator.PrincipalPaidTelescopes` | calculator.py:29-31 | the principal parts of the first `k` months add up to the amount minus the balance after `k` months |
| `Calculator.PrincipalRepaid` | calculator.py:29-31 | over the whole term the principal parts add up to exactly the amount |
| `Calculator.MonthStep` | calculator.py:27-43 | one pass of the loop body appends exactly the record of the month (rounded payment, interest on the previous balance, principal part, new balance), moves the balance one step of the recurrence and adds one payment to the total |
| `Calculator.GetCreditDetails` | calculator.py:13-46 | fails exactly when the payment formula does. Otherwise the records are the schedule of the stored amount, monthly rate and payment for `months` months, the total is `months` payments added up and the overpayment is the total minus the amount |
| `Calculator.ScheduleShape` | calculator.py:25-41 | the schedule has one record per month, and the record at index `i` carries id `i + 1` and the rounded figures of month `i + 1` |
| `Calculator.ScheduleEndsPaidOff` | calculator.py:25-41 | with the annuity payment the schedule has `months` records and the last one shows the rounding of a zero balance |
| `Calculator.TotalPaidIsProduct` | calculator.py:43 | adding the payment once per month for `k` months gives `k * p` |
| `BotText.IsDigits` | tg_calculator_bot.py:26 | `text.isdigit()` on the amount (and on the term at line 38): non-empty and only the characters `0` to `9` |
| `BotText.ParseNatToDigits` | tg_calculator_bot.py:31 | parsing the decimal spelling of `n` gives `n` back (the spelling is a digit string without leading zeros) |
| `BotText.ParseNatLeadingZero` | tg_calculator_bot.py:31 | leading zeros do not change the integer parsed |
| `BotText.ParseNat` | tg_calculator_bot.py:31 | `int(text)` on a digit string, read most significant digit first; a digit string of length `n` parses to less than `10^n` |
| `BotText.EscapeChar` | tg_calculator_bot.py:123 | one `replace(c, "\\" + c)` makes the text longer by exactly the number of occurrences of `c` |
| `BotText.EscapeMarkdown` | tg_calculator_bot.py:123 | the chain of three `replace` calls, underscore first, then star, then backquote |
| `BotText.EscapeMarkdownAppend` | tg_calculator_bot.py:123 | the chain of replacements escapes the two halves of a concatenation independently |
| `BotText.EscapeMarkdownChar` | tg_calculator_bot.py:123 | on one character the chain inserts a backslash exactly when the character is `_`, `*` or `` ` `` |
| `BotText.EscapeChainIsOnePass` | tg_calculator_bot.py:123 | the chain of three replacements equals one left-to-right pass escaping every `_`, `*` and `` ` ``: no backslash added by one step is touched by a later one |
| `BotText.EscapeLength` | tg_calculator_bot.py:123 | the escaped text is longer than the input by exactly the number of `_`, `*` and `` ` `` |
| `BotText.UnescapeEscape` | tg_calculator_bot.py:123 | dropping each backslash that precedes a special character gives the input back, so every other character is kept, in order |
| `BotText.EscapedSpecialsArePreceded` | tg_calculator_bot.py:123 | every `_`, `*` and `` ` `` in the escaped text has a backslash right before it |
| `Bot.FirstMissing` | tg_calculator_bot.py:138-143 | returns the first key in reading order that is absent, or nothing exactly when all keys are present |
| `Bot.LoanInputs` | tg_calculator_bot.py:58-64 | the stored amount and term are read back exactly when both keys are present, the amount is a number and the term an integer; otherwise the lookup raises |
| `Bot.Route` | tg_calculator_bot.py:175-188 | `/start` goes to `start` outside a conversation and to `fallback` inside one; text in ASK_AMOUNT, ASK_TERM and ASK_RATE goes to `ask_amount`, `ask_term` and `ask_rate`; on the results screen `restart`, `show_payments` and `show_results` go to their three handlers; text elsewhere and buttons off the results screen are ignored |
| `Bot.RateAnswer` | tg_calculator_bot.py:47-91 | an invalid number keeps ASK_RATE and the data unchanged. Otherwise the rate is stored and every other key kept. A raise leaves exactly the data with the rate stored, and a `KeyError`/`TypeError` is the one the amount and term lookups raise. On success every key the results screen reads is stored, together with a schedule of one record per month of the stored term |
| `Bot.RateFailsOnZero` | tg_calculator_bot.py:63 | with a stored term of 0, or a rate of 0, the rate handler raises whatever number is typed |
| `Bot.RateSucceedsOnPositive` | tg_calculator_bot.py:63 | with a positive stored term and a positive rate the rate handler does not raise |
| `Bot.Session.Start` | tg_calculator_bot.py:13-21 | clears the user data, leaving only the `user_data` key holding the user, and moves to ASK_AMOUNT |
| `Bot.Session.AskAmount` | tg_calculator_bot.py:23-33 | a non-digit text keeps ASK_AMOUNT and the data unchanged; a digit text stores `amount = int(text)`, changes no other key and moves to ASK_TERM |
| `Bot.Session.AskTerm` | tg_calculator_bot.py:35-45 | the same for `term`, moving to ASK_RATE |
| `Bot.Session.AskRate` | tg_calculator_bot.py:47-91 | answers and leaves stored exactly what `RateAnswer` gives. It stores `rate`, then raises if `amount` or `term` is missing or the formula divides by zero (the rate stays stored). On success it stores the payment, the sum of `term` payments as total, total − amount as overpayment and the schedule computed by `get_credit_details`, and moves to SHOW_RESULT |
| `Bot.Session.HandleRestart` | tg_calculator_bot.py:93-106 | empties the user data and moves to ASK_AMOUNT |
| `Bot.Session.HandleShowPayments` | tg_calculator_bot.py:108-130 | only reads the data; raises KeyError without stored payments; otherwise returns SHOW_RESULT and a message fenced by three backquotes on each side whose body unescapes to the formatted table and is longer by exactly its special characters |
| `Bot.Session.HandleShowResults` | tg_calculator_bot.py:132-165 | only reads the data; raises KeyError for the first of the six result keys that is missing, otherwise returns SHOW_RESULT and the six stored values in order |
| `Bot.Session.Fallback` | tg_calculator_bot.py:167-170 | returns END |
| `Bot.Session.Dispatch` | tg_calculator_bot.py:175-188 | keeps the conversation invariant. An ignored event changes nothing. For each routed event it states the outcome and the new data. `/start` outside a conversation stores only the user and asks for the amount; inside one it ends the conversation and keeps the data. Digit text stores `amount` or `term` and moves on, other text re-asks. The rate answer is `RateAnswer`. `restart` empties the data and asks for the amount. `show_payments` and `show_results` keep SHOW_RESULT and the data. The new state is the one the handler returns, or the old one when it raises. A handler raises exactly when the rate handler's formula divides by zero on the stored amount and term, and never with KeyError or TypeError |

## Left out

- Per-chat conversations: the library keys the conversation state by (chat, user), while `user_data` belongs to the user alone. The model keeps one state and one data map per `Session`. It does not capture one user's data being shared by conversations in several chats. There, `/start` in one chat clears the data, and the results buttons in another chat still on SHOW_RESULT then raise `KeyError` (tg_calculator_bot.py:111, 138).

- Dates: `datetime.today()` and the `relativedelta` month stepping (calculator.py:22, 36, 42) read the clock and call a foreign library; the records carry no date field.
- Binary floating point: the engine is exact over `real`. Python's `round(x, 2)` on floats (calculator.py:37-40) is the parameter `round2`, which the records apply to the unrounded values. NaN, infinities and overflow are not represented.
- `is_valid_number` and `float(text)` (utils.py:1-6, tg_calculator_bot.py:50, 55): the rate handler receives the parse result as an `Option<real>` (`Dispatch` takes the parser as a parameter). Python's float parser, which also accepts `nan`, `inf` and negative numbers, is not modelled.
- `str.isdigit` also accepts non-ASCII digits, some of which `int()` rejects; the model accepts only ASCII `0`–`9`.
- `Calculator.GetCreditDetails`: the term is a `nat`, because its only caller passes `int()` of a digit string. Python would also accept negative or float terms.
- `Bot.LoanInputs`: a stored term that is not an integer is reported as a `TypeError` straight away. Python would first evaluate the payment formula and fail later, at `range()`. No handler ever stores such a term.
- `format_payment_table` is imported (tg_calculator_bot.py:8) but not defined in utils.py, so it is not part of this model. `HandleShowPayments` takes it as a formatting parameter over the stored value.
- `format_payment_for_message` (utils.py:9-22) and the f-string result messages (tg_calculator_bot.py:79-89, 153-163) are display formatting only. `HandleShowResults` returns the six values it would format.
- `states.BotStates` (tg_calculator_bot.py:6) is not part of this model; the states are a local datatype.
- Telegram transport: replies, `query.answer()`, message edits, inline keyboards, `print`, `ApplicationBuilder`, the bot token and `run_polling` (tg_calculator_bot.py:1-5, 172-195) are I/O. The chat user is an opaque identifier.
