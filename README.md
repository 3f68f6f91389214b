# Listing workflow of the market bot, in Dafny

This project models the core of `bot.py`, a Telegram bot through which
authorized vendors compose a listing of 1 to 10 products and publish it as a
photo caption in a shared group topic. The Telegram transport is abstracted
away. What remains:

- **Text transform** `stylize` (`Stylizer`). The text is lower-cased, each
  character is replaced through `REPLACE_MAP`, and the result is upper-cased.
  `Stylizer.Stylize` is the three-stage pipeline. `Stylizer.StylizeText` is the
  source's accumulating loop, proved equal to it.
- **Keyword lookup** `pick_icon` (`Icons`). The lookup scans the ordered
  `ICONS` table for the first key that is a substring of the lower-cased
  name. `Icons.PickIconScan` is the source's early-return loop, proved equal
  to the recursive specification `Icons.PickIcon`.
- **Case mapping** (`CaseMap`). This models Python's `str.lower` /
  `str.upper`, character by character, over Basic Latin, Latin-1 Supplement
  and Latin Extended-A (`CaseMap.IsModelled` names the characters where the
  two agree).
- **Keyboards and callback data** (`Keyboard`). This covers the amount
  keyboard of `start`, the confirm/cancel keyboard of `collect`, and the parse
  `int(data.split("_")[1])` in `choose_count`.
- **Daily quota** (`Quota`). It keeps one `{date, count}` entry per vendor.
  An entry is reset when its date is not today. A publish is refused at
  `MAX_DAILY` = 2 and otherwise charged one post.
- **Handlers** (`Workflow.MarketBot`). This class holds the three stores as
  fields:
  - `sessions` is `context.user_data` for each Telegram user id.
  - `dailyCounter` is `daily_counter`, keyed by lower-cased username.
  - `lastMessageId` is `last_message_id`, keyed the same way.

  Its methods `Start`, `ChooseCount`, `Collect`, `Publish` and `Cancel` are
  the five handlers. Every call into the messaging library is appended to
  `calls`. Two things are inputs: whether a delete succeeds, and the message
  id a send returns (`None` for a send that raises). "Today" is an input too.
  A returned message id is assumed fresh: `Publish` requires an id the channel
  never handed out before. The claim that no two vendors share an id rests on
  this assumption.
- **Scenarios** (`Scenarios`). These are client methods that follow whole
  conversations through the handlers, proved from their contracts alone.

In several places the code behaves differently from what one might expect
of such a bot. The model follows the code:

- One might expect `start` to clear the session. It only gates access and
  offers the keyboard, so a draft survives a restart until an amount is
  chosen (`Scenarios.RestartKeepsDraft`).
- One might expect a rolling 24-hour window for the quota. The quota is per
  calendar date compared by equality (`Quota.CalendarDayNotRollingWindow`).
- The per-date cap relies on `datetime.date.today()` never going backwards.
  `Quota.DailyCap` requires nondecreasing dates for this reason. If the clock
  steps back and forward again, a date can get more than two posts: attempts
  dated 1, 1, 0, 1 starting from no entry admit three posts dated 1.
- One might expect `collect` to stop at the chosen amount. It does not cap
  the draft: text keeps being appended past `count`, and the confirm keyboard
  is offered again each time.
- One might expect every handler to check authorization. Only `start` does:
  `choose_count`, `collect` and `publish` never check it. One might also
  expect `choose_count` to take only 1..10. It accepts any integer the
  callback data parses to.
- A failed send leaves the post charged, the session intact and
  `last_message_id` unchanged. The delete of the previous listing may already
  have happened by then.
- Pressing send when there is no draft (for example, a second press after a
  successful publish) passes the quota code first. If the quota admits the
  press, the post is charged before reading the missing `products` raises
  (outcome `NoDraft`). If two posts were already made that day, the press is
  refused as any other (outcome `LimitReached`).

## Model

| member | source | states |
|---|---|---|
| `CaseMap.Lower` | bot.py:48 | per-character str.lower over the modelled alphabet: a capital becomes its small letter, every other character is kept, and the result is never a capital |
| `CaseMap.Upper` | bot.py:50 | per-character str.upper over the modelled alphabet: a small letter that has a capital becomes that capital, every other character is kept, and the result is never such a small letter |
| `CaseMap.LowerStr` | bot.py:48 | over the modelled alphabet, lower-casing keeps the length, leaves no capital letter, and keeps every character the same up to case (its upper-cased form is the input's) |
| `CaseMap.UpperStr` | bot.py:50 | over the modelled alphabet, upper-casing keeps the length, leaves no small letter that has a capital form, and keeps every character the same up to case (its lower-cased form is the input's) |
| `CaseMap.LowerIgnoresCase` | bot.py:67 | over the modelled alphabet, lower-casing an upper-cased or lower-cased string gives the same as lower-casing the original |
| `Stylizer.Substitute` | bot.py:49 | REPLACE_MAP.get(c, c): a key of REPLACE_MAP becomes a different, capital letter, and every other character is kept |
| `Stylizer.Stylize` | bot.py:36-50 | stylize is lower-casing, then REPLACE_MAP (a, e, i, o, u, s, c to U+00C5, U+00CB, U+00CF, U+00D8, U+00DC, U+015A, U+00C7) with every other character kept, then upper-casing; over the modelled alphabet the result is as long as the text, and it holds no small letter that has a capital form |
| `Stylizer.StylizeText` | bot.py:46-50 | the source's loop over the lower-cased text, then upper-casing, computes exactly the lower, substitute, upper pipeline |
| `Stylizer.StylizeAt` | bot.py:36-50 | over the modelled alphabet, the output has the input's length; character i is the REPLACE_MAP image of the lower-cased input character when it has one, otherwise the upper-cased input character |
| `Stylizer.StylizeConcat` | bot.py:46-50 | stylize of a concatenation is the concatenation of the stylized parts |
| `Stylizer.StylizeHidesPlainLetters` | bot.py:36-50 | over the modelled alphabet, no output character is a plain A, E, I, O, U, S or C |
| `Stylizer.StylizeCharIdempotent` | bot.py:36-50 | over the modelled alphabet, a stylized character is again a modelled character and a fixed point of the per-character transform |
| `Stylizer.StylizeIdempotent` | bot.py:46-50 | over the modelled alphabet, stylized text stays in that alphabet and stylizing it again leaves it unchanged, so a second pass cannot double-encode |
| `Icons.OccursIn` | bot.py:69 | Python's `k in n` on strings: a key longer than the name never occurs, and the empty key always occurs |
| `Icons.FirstIcon` | bot.py:68-71 | the scan over a table returns the default icon or the value of an entry whose key occurs in the name |
| `Icons.PickIcon` | bot.py:54-71 | pick_icon scans ICONS in insertion order (weed, buch, marihuana, kokaina, koks, xanax, tabletki, mdma, lsd) over the lower-cased name; the result is the default U+1F539 or the icon of a key that occurs in the lower-cased name |
| `Icons.FirstIconSpec` | bot.py:68-70 | the scan returns the value of the earliest table entry whose key is a substring |
| `Icons.FirstIconNoMatch` | bot.py:68-71 | when no key is a substring the scan returns the default icon |
| `Icons.FirstIconSomeMatch` | bot.py:68-70 | when some key is a substring the result is the value of an entry at or before it |
| `Icons.PickIconFirstMatch` | bot.py:54-71 | pick_icon returns the icon of the first ICONS key, in table order, occurring in the lower-cased name |
| `Icons.PickIconDefault` | bot.py:66-71 | pick_icon returns the default icon exactly when no ICONS key occurs in the lower-cased name |
| `Icons.PickIconIgnoresCase` | bot.py:67 | over the modelled alphabet, pick_icon gives the same icon for a name, its upper-cased and its lower-cased form |
| `Icons.PickIconScan` | bot.py:66-71 | the source's early-return loop over ICONS returns exactly PickIcon(name) |
| `Keyboard.Digits` | bot.py:83 | str(n) for a natural n is a non-empty run of decimal digits (read back by DigitsRoundTrip) |
| `Keyboard.ParseInt` | bot.py:98 | int(s) on an optionally signed run of ASCII digits: a run of digits gives its decimal value, a signed run gives that value with the sign applied, and every other string, the empty one included, is refused (the ValueError) |
| `Keyboard.Split` | bot.py:98 | str.split on one character always yields at least one piece |
| `Keyboard.SplitPieces` | bot.py:98 | no piece of a split holds the separator, and there is more than one piece only when the string holds the separator |
| `Keyboard.SplitJoin` | bot.py:98 | joining the pieces of a split with the separator gives back the string |
| `Keyboard.ParseCount` | bot.py:98 | int(data.split("_")[1]), with None for the IndexError or ValueError; data without an underscore is refused (the IndexError) |
| `Keyboard.ParseCountPiece` | bot.py:98 | data made of a piece, an underscore, a piece q and a rest that is empty or starts with an underscore parses exactly as int(q), so a non-numeric q is refused (the ValueError) |
| `Keyboard.CountKeyboard` | bot.py:82-85 | the amount keyboard has ten rows of one button each |
| `Keyboard.ConfirmKeyboard` | bot.py:116-121 | the confirm keyboard is one row of two buttons sending send and cancel |
| `Keyboard.DigitsRoundTrip` | bot.py:83 | reading back the decimal digits that str(n) writes gives n |
| `Keyboard.ParseIntDigits` | bot.py:98 | int(str(n)) == n for every natural n |
| `Keyboard.SplitWithout` | bot.py:98 | splitting a string that holds no separator gives the one-element list of that string |
| `Keyboard.SplitAtFirst` | bot.py:98 | splitting at the first separator yields the piece before it followed by the split of the rest |
| `Keyboard.ParseCountOf` | bot.py:98 | the callback data count_k is parsed back to k |
| `Keyboard.CountKeyboardRoundTrip` | bot.py:82-85 | the amount keyboard has 10 one-button rows; row i is labelled i+1 and its data parses back to i+1 |
| `Quota.Admits` | bot.py:143 | the quota test admits an entry only when charging it one post keeps it within MAX_DAILY |
| `Quota.Refresh` | bot.py:137-141 | the entry tested is dated today; its count is 0 unless it is the stored entry unchanged |
| `Quota.Charge` | bot.py:137-147 | the entry stored after the quota code is dated today and holds the tested count or one more |
| `Quota.ChargeSpec` | bot.py:137-147 | a missing or stale entry counts as 0 posts today; admission holds exactly when the entry is missing, stale or below MAX_DAILY; an admitted attempt stores today with one more post, a refused one leaves the entry as it was; the stored count stays within 0..MAX_DAILY |
| `Quota.AdmittedFromDays` | bot.py:137-147 | every admitted post is dated with the day of some attempt |
| `Quota.DailyCap` | bot.py:137-147 | over attempts on nondecreasing dates, no date gets more than MAX_DAILY posts, counting those already recorded |
| `Quota.CalendarDayNotRollingWindow` | bot.py:135-147 | two posts on one day and two on the next are all admitted; a third on the same day is refused |
| `Workflow.IsVendor` | bot.py:78 | the gate admits a user with a non-empty username whose lower-cased form is a vendor name; that lower-cased name is the key publish uses |
| `Workflow.Handle` | bot.py:134 | the key publish uses is the lower-cased username: as long as the username, with no capital letter |
| `Workflow.ProductLine` | bot.py:161-162 | a product's caption line starts with its icon, ends with a line break and, over the modelled alphabet, is two characters longer than the icon and the name together |
| `Workflow.Lines` | bot.py:160-162 | the caption lines are empty exactly for an empty draft, and a non-empty draft's lines end with a line break |
| `Workflow.LinesConcat` | bot.py:160-162 | the caption lines of a concatenation of drafts are the concatenated lines, so products appear in draft order |
| `Workflow.ComposeLines` | bot.py:160-162 | the source's loop builds one `icon stylized-name` line per product, in order |
| `Workflow.MarketBot.constructor` | bot.py:31-32 | all stores start empty and the invariant holds |
| `Workflow.MarketBot.Start` | bot.py:75-90 | a user with no or empty username, or whose lower-cased username is not a vendor name, gets the denial, others get the amount keyboard; sessions, daily_counter and last_message_id are unchanged either way |
| `Workflow.MarketBot.ChooseCount` | bot.py:94-102 | parsable data sets the user's session to count k with an empty product list and prompts for an item; unparsable data changes nothing |
| `Workflow.MarketBot.Collect` | bot.py:106-126 | without a draft nothing happens; otherwise the text is appended at the end of the products and the confirm keyboard is offered exactly when the new length reaches count |
| `Workflow.MarketBot.Cancel` | bot.py:195-199 | the user's session is cleared and the cancellation is replied |
| `Workflow.MarketBot.ChargeQuota` | bot.py:137-147 | daily_counter becomes the old map with this vendor's entry refreshed and charged; admission is the quota test on the refreshed entry; a refusal leaves daily_counter unchanged; counts stay within 0..MAX_DAILY |
| `Workflow.MarketBot.ReplaceListing` | bot.py:170-188 | a delete of the vendor's old message id is attempted when there is one; the new listing is sent whatever the delete did; on a successful send last_message_id maps the vendor to the new id and other vendors keep theirs; no two vendors share an id |
| `Workflow.MarketBot.Publish` | bot.py:130-191 | no username changes nothing; a refusal only replies; an admitted press without a draft charges the post and sends nothing; with a draft it sends the caption of the products, replacing the old listing, then clears the session (a failed send keeps it) |
| `Scenarios.ThreeItemListing` | bot.py:75-191 | start, amount 3, three items and send with a fresh quota publish once and charge one post |
| `Scenarios.RepublishReplaces` | bot.py:170-188 | a second listing attempts to delete the first message and becomes the vendor's last message whether the delete succeeded or not |
| `Scenarios.ThirdPostRefused` | bot.py:143-145 | after two posts on a date the third press is refused and the draft is kept |
| `Scenarios.RestartKeepsDraft` | bot.py:75-102 | start in the middle of collection keeps the draft; only a new amount choice resets it |

## Left out

- Telegram API calls are not executed. The model logs them as `calls`: replies to the user, `delete_message` with its outcome, and `send_photo` with the id it returned. The acknowledgements `q.answer()` are not logged. Keyboard markup is reduced to rows of (caption, data) buttons.
- The destination of `send_photo` is fixed configuration and is not part of the model. This covers `GROUP_ID`, `TOPIC_ID` and `LOGO_URL`.
- `main` and handler registration are not modelled. The methods are called directly, so the routing patterns `^count_`, `^send$` and `^cancel$` are not.
- async interleaving of handlers is not modelled. Each method runs to completion, as one event at a time would.
- Environment parsing is not modelled (`BOT_TOKEN`, `GROUP_ID`, `TOPIC_ID`, `VENDOR_NAME`). `VENDOR_NAMES` is a constructor argument, already lower-cased and split.
- Wall-clock reads are inputs. "Today" is the `today` parameter of `Publish`, a day number compared only by equality. The `%H:%M` time string is not modelled.
- The caption's decorative header, time, footer text and Markdown formatting are not modelled. `Caption` keeps the per-product lines and the contact handle only.
- The texts of the replies are not modelled. `Reply` names each reply, and only the keyboards are kept.
- Unicode case mapping outside `CaseMap.IsModelled` is not modelled: characters beyond U+017F, and the six letters with special Python mappings, are treated as caseless.
- CaseMap.LowerIgnoresCase, Stylizer.StylizeAt, Stylizer.StylizeHidesPlainLetters, Stylizer.StylizeCharIdempotent, Stylizer.StylizeIdempotent and Icons.PickIconIgnoresCase: these are stated only over the modelled alphabet, because they fail for Python outside it. `"ß".upper().lower()` is `"ss"`. `stylize("ß")` is `"SS"`, so the length changes, and a second pass turns it into `"ŚŚ"`. `stylize("ſ")` is `"S"`, and `pick_icon("lſd")` differs from `pick_icon("LSD")`.
- CaseMap.LowerStr, CaseMap.UpperStr, Stylizer.Stylize and Workflow.ProductLine: their length and per-position clauses hold for Python only over the modelled alphabet. `"İ".lower()` and `"ß".upper()` each have two characters, so the line of the product `ß` is three characters longer than its icon and name. "No small letter" means no small letter that has a capital form: `ª`, `º` and `ĸ` are small letters without one and pass through unchanged.
- Keyboard.ParseInt: does not model the surrounding whitespace, the underscore-grouped digits (`int("1_0")` is 10) and the non-ASCII digits that Python's `int()` also accepts; these are treated as the ValueError. Neither grouping nor whitespace can reach the parse at bot.py:98, whose piece comes from a split on `_` and whose data is `count_1` to `count_10`.
- Keyboard.ParseIntDigits: does not model the limit of 4300 digits beyond which Python's `int()` raises ValueError, so int(str(n)) == n is stated for every natural n; the amount keyboard writes at most two digits.
- Whether a delete succeeds is recorded but drives no state, exactly as the swallowed exception in the source.
