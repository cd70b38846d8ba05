# Tender alert bot — a Dafny model of its subscription core

`bot.py` is a Telegram bot. It stores subscriptions to public procurement notices and
periodically asks the zakupki.gov.ru search API for new tenders. This project models the part
of the bot that can be stated exactly:

- **Filter messages** (`set_filter`). Any free text is stripped and split on whitespace. The
  first token is the keywords, the second the region, and the third the maximum price, taken
  only when it is all digits. Text without a token is answered with a prompt and stores nothing.
  The model is `FilterParse.ParseFilter`, built on a model of Python's `isspace`, `strip()`,
  `split()` and `isdigit()` (`PyText`).
- **The two tables.**
  - `users` is insert-or-ignore by user id, and a missing username becomes `"NoUsername"`.
  - `filters` is append-only. Every accepted message adds a row whose watermark
    (`last_checked`) is one minute before the moment of insertion.
  - Both tables are fields of the class `Subscriptions.Store`. Its methods `Start` and
    `SetFilter` change them.
- **The search query** (`search_tenders`). Five parameters are always present. `region` and
  `priceTo` are added only when their values are truthy. The model is `Search.QueryParams`:
  an ordered list of key/value pairs, as the dictionary is built.
- **The check cycle** (`check_new_tenders`). For each filter row, in table order, the bot
  searches once. It then notifies the row's user of every item that has a publication date
  later than the row's watermark, in reply order. A failed send is swallowed. Finally the row's
  watermark is set to the current clock reading. This is the method
  `Subscriptions.Store.CheckCycle`, with its inner loop `Subscriptions.NotifyRow`. Both are
  proved against the specification functions `Queries`, `CycleSends`/`RowSends` and `Stamped`.
  `RowSends` applies the rule `Notify.IsNew` item by item; `Subscriptions.RowSendsAreFresh`
  proves that its sends are exactly the selection `Notify.Fresh`, whose properties are proved.
- **The notification text** (`Notify.Message`). It uses the template's defaults for missing
  fields and keeps the first ten characters of the date.

The clock, the search replies and the delivery outcomes are inputs, not effects:

- `SetFilter` takes `now`.
- `CheckCycle` takes, for row `i` of the table as read at the start of the cycle:
  - `fetched[i]`, the items the search returned, which is `[]` when the request failed;
  - `outcome[i][j]`, whether sending item `j` succeeded;
  - `stamps[i]`, the `utcnow()` reading taken when that row is updated.

  It returns the searches it issued and the notifications it attempted.

Timestamps are integers counting microseconds. A tender's `published` field is the instant
its date string denotes.

Every accepted filter message appends a new row; earlier rows of the same user stay, so a user
may hold several filters. There is no local keyword/region/price matcher: matching is left to
the remote search, through the query parameters. `Subscriptions.AppendKeepsFilters` states that
a new filter never replaces an earlier one, and the cycle filters on nothing but the watermark.

## Model

| member | source | states |
|---|---|---|
| PyText.IsSpace | bot.py:138-140 | Python's `str.isspace` for one character, the whitespace `strip()` and `split()` use |
| PyText.Strip | bot.py:138 | `str.strip()`: `TrimEnd` after `TrimStart`; `StripSpec` states what it removes |
| PyText.WordLength | bot.py:140 | the length of the run of non-whitespace characters a text starts with; the next character, if any, is whitespace |
| PyText.Tokens | bot.py:140 | `str.split()`: every token is non-empty and holds no whitespace |
| PyText.TokensSplitAtSpace | bot.py:140 | any whitespace character separates tokens: the tokens of `a`, a whitespace character, then `b` are the tokens of `a` followed by those of `b` |
| PyText.IsDigits | bot.py:147 | `str.isdigit()` on ASCII digits: non-empty, digits only |
| PyText.DigitsValue | bot.py:147 | the number a digit string denotes; `DigitsValueOfShowNat` states it reads back decimal renderings |
| PyText.TokensEmptyIffAllSpace | bot.py:138-143 | the split of a text is empty exactly when the text is empty or whitespace only |
| PyText.TokensOfStrip | bot.py:138-140 | splitting the stripped text gives the same tokens as splitting the raw text |
| PyText.StripSpec | bot.py:138 | `strip()` removes exactly a leading and a trailing run of whitespace; the result neither starts nor ends with whitespace |
| PyText.TokensKeepText | bot.py:140 | the tokens, concatenated, are exactly the non-whitespace characters of the text, in order |
| PyText.TokensOfJoin | bot.py:140 | splitting non-empty, space-free words joined by single spaces gives the words back |
| PyText.DigitsValueOfShowNat | bot.py:147 | the decimal digits of a number read back as that number |
| FilterParse.ParseFilter | bot.py:136-147 | nothing is accepted iff the text is whitespace only; otherwise keywords = first token, region = second token or absent, price present iff a third token exists and is all digits, with that value |
| FilterParse.ParsedFieldsAreTokens | bot.py:145-146 | accepted keywords and region are non-empty and contain no whitespace |
| FilterParse.ExtraTokensIgnored | bot.py:145-147 | two texts that agree on their first three tokens give the same filter |
| FilterParse.ParseAdvertisedFormat | bot.py:131-147 | `keywords region price`, followed by anything, is read back as exactly that keywords, region and price |
| FilterParse.ParseKeywordsOnly | bot.py:145-147 | a single word gives keywords only, with no region and no price |
| FilterParse.ParseRejectsNonDigitPrice | bot.py:147 | a third token that is not all digits gives no price and keeps keywords and region |
| FilterParse.NonDigitPriceExamples | bot.py:147 | "1.5e6", "-5" and the empty string are not digit strings; "1500000" is |
| Search.RegionGiven | bot.py:59 | Python truthiness of the region: present and not the empty string |
| Search.PriceGiven | bot.py:61 | Python truthiness of the price: present and not 0 |
| Search.QueryParams | bot.py:52-62 | the parameter dictionary, in the order its keys are added; `QueryParamsSpec` states its contents |
| Search.QueryParamsSpec | bot.py:52-62 | no key is repeated; `query`, `pageSize`=10, `pageNumber`=1, `sortBy`=publicationDate and `sortDirection`=desc are always present; `region` is present iff the region is truthy and `priceTo` iff the price is truthy, each with its value |
| Search.ZeroPriceIsOmitted | bot.py:61-62 | a price of 0 sends no `priceTo` |
| Search.NamesDistinct | bot.py:52-62 | the seven parameter names differ from each other |
| Notify.IsNew | bot.py:84-87 | an item is news for a row when its date is non-empty, the row has a watermark, and the item was published strictly after it |
| Notify.Fresh | bot.py:83-87 | the new items of one reply, in reply order: no more items than the reply holds, each of them new; `FreshCount` and `FreshAppend` state the rest |
| Notify.FreshAppend | bot.py:83-87 | the selection of new items keeps the reply order: selecting from a concatenation concatenates the selections |
| Notify.FreshCount | bot.py:83-87 | each occurrence of an item is selected exactly when its date is non-empty, the watermark is present and it was published after the watermark |
| Notify.FreshWithoutWatermark | bot.py:85-86 | a row without a watermark selects nothing |
| Notify.FreshEmptyUpToWatermark | bot.py:85-87 | nothing published at or before the watermark is selected |
| Notify.DatePrefix | bot.py:94 | the first ten characters of the date, or all of a shorter one |
| Notify.TemplateLines | bot.py:89-96 | the eight lines of the notification template, with the defaults of missing fields |
| Notify.Message | bot.py:89-96 | the notification text: the template's lines joined by line breaks |
| Notify.MessageLines | bot.py:89-96 | when the shown values hold no line break, the text splits into exactly the template's eight lines: empty line, header, bold title (default "Без названия"), price and region (default "—"), the first ten characters of the date, the link (default https://zakupki.gov.ru), the indented closing line |
| Notify.SplitOfJoinLines | bot.py:89-96 | lines without line breaks, joined by line breaks, split back into the same lines |
| Subscriptions.DisplayName | bot.py:117 | a missing or empty username becomes "NoUsername"; any other is kept |
| Subscriptions.InsertOrIgnore | bot.py:121 | the user id is added if new, with the given name; existing users keep their name |
| Subscriptions.InsertOrIgnoreIdempotent | bot.py:121 | a second insert for the same user changes nothing |
| Subscriptions.RowsOf | bot.py:151-152 | the filters of one user: that user's rows of the table, in insertion order |
| Subscriptions.RowsOfCount | bot.py:151-152 | each occurrence of a row of the user is among the user's filters exactly once, and no other user's row is |
| Subscriptions.RowsOfLength | bot.py:151-152 | a user has no more filters than the table has rows, and each of them belongs to that user |
| Subscriptions.AppendKeepsFilters | bot.py:151-152 | after a row is appended, every user keeps every filter they had, and only the row's own user gains one: that row |
| Subscriptions.NewRow | bot.py:151-152 | the row a filter message inserts: the parsed fields and the watermark `now` minus one minute |
| Subscriptions.UpdateWhereId | bot.py:103 | `UPDATE … WHERE id`: every row with that id gets the new watermark; the table keeps its length |
| Subscriptions.UpdateWhereIdTouchesOne | bot.py:103 | with unique ids, the update by id changes only the watermark of that one row |
| Subscriptions.RowQuery | bot.py:80-81 | the search one row issues: the query parameters of its keywords, region and price |
| Subscriptions.Queries | bot.py:79-81 | one search per row of the table as read, in table order |
| Subscriptions.Stamped | bot.py:79-103 | the table after the cycle: every row with its own clock reading as watermark, all other columns as read |
| Subscriptions.RowSends | bot.py:83-100 | the notifications one row attempts for one reply, with their outcomes, in reply order |
| Subscriptions.CycleSends | bot.py:79-100 | the notifications of a whole cycle: each row's, in table order |
| Subscriptions.RowSendsAreFresh | bot.py:83-100 | a row sends one notification per selected item, in reply order, to the row's user, with that item's text |
| Subscriptions.CycleAttemptsIgnoreOutcome | bot.py:97-100 | the notifications attempted, and their recipients and order, do not depend on which sends fail |
| Subscriptions.NoRepeatAfterCycle | bot.py:83-103 | after a cycle, a row whose next reply holds only items published up to its clock reading sends nothing |
| Subscriptions.FirstCycleOfNewRow | bot.py:151-152 | on a new filter's first cycle, an item is notified iff it is dated and published later than one minute before the filter was created |
| Subscriptions.StampOneRow | bot.py:103 | one cycle step stamps row `i` and leaves all other rows as they were |
| Subscriptions.StampedUpToAll | bot.py:79-103 | after the last step, every row carries its own clock reading |
| Subscriptions.NotifyRow | bot.py:83-100 | the inner loop sends exactly `RowSends`: the new items in reply order, with their outcomes |
| Subscriptions.Store.constructor | bot.py:26-47 | the tables start empty, and the first id handed out is 1 |
| Subscriptions.Store.Start | bot.py:114-123 | the users table becomes the insert-or-ignore of the user with their display name |
| Subscriptions.Store.SetFilter | bot.py:136-154 | returns the parse; on rejection nothing changes; otherwise exactly one row is appended, with the next id, the parsed fields and watermark `now` minus one minute |
| Subscriptions.Store.CheckCycle | bot.py:73-105 | issues one search per row, in table order; attempts exactly `CycleSends`; each row's watermark becomes its own clock reading, and no other column or row changes; ids stay unique |

## Left out

- The SQLite connection, cursor, commit and close are not modelled. The tables are in-memory
  fields, and the foreign key from `filters` to `users` is not modelled either (SQLite does not
  enforce it by default).
- The HTTP request, its headers and timeout, and JSON decoding are left out. The reply is the
  input `fetched[i]`, which is `[]` when the status is not 200 or the request raises.
- The bot replies, the Markdown sending and the dispatcher are left out. A send is represented
  only by its recipient, its text and whether it succeeded.
  - This covers the greeting of `/start`, the prompt for empty text and the confirmation of a
    new filter.
  - The routing of `/start` versus free text is also left out, and so is the fact that a message
    without text never reaches `set_filter`.
- The `scheduler` loop, the fifteen-minute sleep and the startup wiring are left out. One cycle
  is modelled, running alone. Handlers interleave with a cycle only while it awaits a send:
  - `requests.get` blocks the event loop, so no handler runs during a search;
  - after the cycle's first `UPDATE`, its connection holds SQLite's write lock until the
    commit at the end of the cycle;
  - so a `/start` or a filter message handled during a later send waits out sqlite3's
    five-second timeout, fails with "database is locked" and stores nothing.

  That failure is not modelled: `Start` and `SetFilter` always complete.
- `datetime.fromisoformat` and time zones are left out. Dates are integers, and the cycle
  assumes every comparison goes through. As written, a publication date carrying an offset
  (the `Z` that the code rewrites as `+00:00`) is timezone-aware, while the watermark from
  `utcnow()` is naive. Comparing them raises `TypeError`, which nothing catches:
  - it ends the cycle, and since nothing is committed, every row keeps its old watermark, so
    items already notified in that cycle are notified again when checks resume;
  - it also escapes `scheduler`, whose loop has no `try`, so no later cycle runs until the bot
    is restarted.

  A malformed date, which raises `ValueError`, is also assumed away.
- The price's conversion to `float` is left out. The price is a natural number, so
  - precision loss above 2^53 is not modelled;
  - the rendering `1500000.0` that the float gets in the query string and the database is not
    modelled either.
- FilterParse.ParseFilter: accepts only the ASCII digits as `isdigit()` digits. Python also
  accepts other Unicode digit characters, which `float` may then reject.
- Notify.MessageLines: states the line structure only when the shown values hold no line break;
  a value with a line break makes more lines, and the lemma says nothing about where they fall.
- Notify.Tender: fields that are JSON `null` are not distinguished from other values. Python
  would print `None` for them in the message.
- Subscriptions.Store.CheckCycle: the watermark is the clock reading as an instant. The
  column's text form, written by `isoformat()` and read back by `fromisoformat`, is not
  modelled.
