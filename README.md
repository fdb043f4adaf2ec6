# RIDNESS bot conversation core, in Dafny

This project models the conversation engine of the RIDNESS Telegram bot
(`bot.py`, aiogram 2). The engine covers:

- the two per-user forms:
  - PreOrder, which asks for a quantity and then a comment;
  - ClubJoin, which asks for a name, a phone, an e-mail and then consent.
- the cancel word, which ends a form at any step;
- the club's member list and its lookups `is_member` and `get_member`;
- the process-wide selection-key table `order_map`, which links an item's preorder button to the item;
- the preorder counter and the administrator commands `/stats` and `/add_sale`;
- the membership gate in front of the catalog, news, contacts and addresses.

Modules:

- `Wrappers`: `Option`.
- `Text`: the parts of Python's string handling the bot relies on:
  - `str.lower`, `lstrip`, `startswith`, `in`, `split(":", 1)`;
  - `str(n)`;
  - `int(s)`: the padding it skips (ASCII blanks and non-ASCII Unicode whitespace, but not U+001C..U+001F), an optional sign, and digit groups with single underscores.
- `Commands`: aiogram's command filter and `Message.get_args()`.
- `Membership`: member records, `IsMember`, `GetMember` (first match) and the uniqueness of user ids.
- `Catalog`: the catalog, selection keys `cat:idx`, `order_map` after rendering a category, and the button data `order:<key>`.
- `Replies`: the replies and notices the bot sends, as values. The wording and keyboards are not modelled.
- `Forms`: one tagged state per active form and a step function `Advance`. `EffectOf` gives a step's effect outside the form: the reply, the notices to the administrator and the group, the member to append and the counter increment.
- `RidnessBot`: class `Bot`, with:
  - fields: the form registry (`sessions`), the member list, `orderMap` and `orderCount`;
  - one method per handler;
  - `HandleMessage` (through `ContinueForm` or `Dispatch`) and `HandleCallback`, which dispatch as aiogram does.

  Dispatch follows aiogram's default state filter. While a user has a form, every text message goes to that form's handler, and no callback handler fires. Otherwise the first stateless handler, in registration order, whose filter accepts the text takes it.

`Bot.Valid()` holds after the constructor and after every message and callback. It says two things:

- every `order_map` entry names an existing item under that item's own key;
- a user in the middle of ClubJoin is not a member.

A consequence: if the member list had unique user ids, every handler keeps it so.

Two facts about the source that shape the model:

- `cj_finish` appends the new record without re-checking whether the user is already a member (bot.py:409-418), and there is no duplicate error. Provided every send succeeds, ids stay unique because of the check in `club_entry` (bot.py:343) and because no other handler runs while a form is active.
- An exception raised inside a handler leaves the form where it was. For example, a failed send after the counter was bumped (bot.py:273-283) leaves the user at the comment step. The model has no exceptions (see "Left out").

## Model

| member | source | states |
|---|---|---|
| Forms.IsCancel_Spelling | bot.py:247-248 | A text cancels exactly when it has the cancel word's six letters, each either small or capital. So "Отмена" and "ОТМЕНА" both cancel. |
| Forms.IsCancel_Examples | bot.py:247-248 | "отмена", "Отмена" and "ОТМЕНА" cancel. The empty text, the skip word, the agree word and "Отмена!" do not. |
| Text.LowerChar_CyrillicPreimage | bot.py:248 | The only characters that lower-case to a small Cyrillic letter are that letter and its capital. |
| Forms.Advance | bot.py:251-429 | Three characterisations, each an if-and-only-if. A step cancels exactly on the cancel word. It is declined exactly on a non-cancel text other than "Согласен" at the consent step. It completes exactly at the comment step or on "Согласен" at the consent step. Otherwise it continues in the same form, appends the text to the collected fields and has one step fewer left. A completed form carries the collected fields. The comment is absent exactly when the text is the skip word. |
| Forms.Cancel_NoEffect | bot.py:253-256 | Cancelling in any state ends the form (the same branch opens every form handler: bot.py:265-268, 356-359, 370-373, 384-387, 400-403). Nothing is sent, no member is appended and the counter is unchanged. |
| Forms.PreOrder_Completion | bot.py:264-286 | Completing a preorder adds one to the counter. The same card goes to the administrator and then to the group, and the reply is the thanks message. The skip word gives "(нет)". |
| Forms.Agree_Enrolls | bot.py:398-418 | At the consent step, exactly "Согласен" appends the member built from the user id, the collected fields and the timestamp, and notifies the administrator. Any other non-cancel text appends nothing, sends nothing and explains that consent is required. |
| Forms.Effect_Exclusive | bot.py:263-418 | Only completed consent appends a member, and it is the sender's own record. Only a completed comment step touches the counter, and then by exactly one. |
| Forms.Feed_Ends | bot.py:250-429 | No form outlives its remaining number of messages: two for PreOrder, four for ClubJoin. |
| Forms.Feed_PreOrderCompletes | bot.py:251-286 | A preorder that is never cancelled completes with the item, name and contact it was seeded with. |
| Forms.ClubJoin_Answers | bot.py:354-426 | The four ClubJoin answers, none of them the cancel word, give an enrollment with that name, phone and e-mail when the last answer is "Согласен", and a decline otherwise. |
| Forms.PreOrder_Skip | bot.py:270-271 | A quantity followed by the skip word completes the preorder with no comment. |
| Membership.GetMember | bot.py:76-81 | Returns a record exactly when the user is a member (`is_member`, bot.py:71-73). The record carries the user's id and is the first such record in the list. |
| Membership.IsMember_Append | bot.py:409-418 | Appending a record makes its user a member and changes no one else's membership. |
| Membership.UniqueIds_Append | bot.py:343 | Appending the record of a user who is not a member keeps user ids unique. |
| Catalog.Key_Injective | bot.py:192 | Two different (category, index) pairs never share a key, whatever the category names contain. |
| Catalog.Rendered_Maps | bot.py:191-193 | After the loop, the key of every item of the category maps to that item. |
| Catalog.Rendered_Others | bot.py:191-193 | Every other entry of the table is untouched. |
| Catalog.Rendered_AlreadyThere | bot.py:191-193 | Re-registering entries that are already present changes nothing. |
| Catalog.Rendered_Into | bot.py:191-193 | Registering items that exist keeps every entry of `order_map` pointing at an existing item under its own key. |
| Catalog.Rendered_Idempotent | bot.py:191-193 | Rendering the same category twice leaves the table as one rendering does. |
| Catalog.SelectionKey | bot.py:227 | `split(":", 1)[1]` of the button data returns the key the button was built with (bot.py:200). |
| Text.ParseInt_IntString | bot.py:449 | `int(str(n)) == n` for every integer n. |
| Text.ParseInt_Five | bot.py:449 | `int("5")` is 5. |
| Text.ParseInt_PaddedNegative | bot.py:449 | `int(" -12\n")` is -12: surrounding whitespace and a sign are accepted. |
| Text.ParseInt_Underscores | bot.py:449 | `int("1_000")` is 1000: single underscores between digits are accepted. |
| Text.ParseInt_DoubleUnderscore | bot.py:449 | `int("1__0")` fails: two underscores in a row are not a number. |
| Text.ParseInt_Separators | bot.py:449 | `int("5\x1f")` fails, because U+001F is not padding to `int()`, while `int("5\xa0")` is 5. |
| Text.ParseInt_NotNumbers | bot.py:449 | `int("")` and `int("five")` fail. |
| Commands.Command_Plain | bot.py:442-449 | `/name rest`, with a plain name, invokes the lower-cased name. `get_args()` is `rest` without its leading blanks. |
| Commands.AddSaleFive | bot.py:442-450 | `/add_sale 5` is the add_sale command with argument "5", and that argument reads as 5. |
| Commands.NotCommand | bot.py:122 | A text whose first character is neither whitespace nor '/' invokes no command, so the button labels never reach a command handler. |
| RidnessBot.Route_News | bot.py:144 | "Новости" reaches `show_news` whatever the catalog holds, because that filter is registered before `show_items`. |
| RidnessBot.Route_Catalog | bot.py:159 | "Каталог" reaches `choose_category` whatever the catalog holds. |
| RidnessBot.Route_Preorder | bot.py:171 | "Предзаказ" reaches `preorder_from_menu` whatever the catalog holds. |
| RidnessBot.Route_Contacts | bot.py:290 | "Контакты" reaches `show_contacts` unless a category has that name, since the category filter (bot.py:179) comes first (`Route_Category`). |
| RidnessBot.Route_Addresses | bot.py:318 | "Адреса" reaches `show_addresses` unless a category has that name. |
| RidnessBot.Route_ClubButton | bot.py:340 | The club button "🐎 RIDNESS Club" reaches `club_entry` through its leading emoji, unless a category has that name. |
| RidnessBot.Route_Category | bot.py:179 | A category name goes to `show_items` unless it is one of the three labels before it or `/start`/`/ping`. So a category shadows "Контакты", "Адреса", the club entry, `/stats`, `/add_sale` and the fallback. |
| RidnessBot.Route_ClubBeforeAdmin | bot.py:340 | A text the club filter accepts goes to `club_entry` unless an earlier filter takes it (a menu label, a category, `/start`, `/ping`), even when it is `/stats` or `/add_sale`. |
| RidnessBot.Route_CommandMentioningClub | bot.py:340-443 | A command whose arguments mention "ridness club", such as "/stats ridness club", is that command to the command filter, yet `club_entry` handles it, unless it is `/start`, `/ping` or a category name. |
| RidnessBot.Route_Start | bot.py:122 | Every text that invokes `/start` reaches `cmd_start`, whatever the catalog holds, because it is registered first. |
| RidnessBot.Route_Ping | bot.py:138 | Every text that invokes `/ping` reaches `cmd_ping`, whatever the catalog holds, because only `cmd_start` comes before it. |
| RidnessBot.Route_Stats | bot.py:433 | Every text that invokes `/stats` reaches `cmd_stats` unless a category has that name or the club filter accepts it. No menu label is a command. |
| RidnessBot.Route_AddSale | bot.py:442 | Every text that invokes `/add_sale` reaches `cmd_add_sale` unless a category has that name or the club filter accepts it. |
| RidnessBot.Route_AddSaleFive | bot.py:442-450 | "/add_sale 5" reaches `cmd_add_sale` unless a category has that name, and its argument reads as 5. |
| RidnessBot.Bot.AdminAddsFive | bot.py:442-451 | The administrator's "/add_sale 5", sent outside a form, adds 5 to the counter and replies with the new total. The forms, the member list and `order_map` stay as they were, and nothing is sent to the administrator or the group. |
| Text.Contains_Prefixed | bot.py:340 | Putting text in front of a string does not hide what it contains (substring `in`). |
| RidnessBot.Bot.constructor | bot.py:85-86 | The bot starts with no forms, an empty `order_map` and a zero counter. |
| RidnessBot.Bot.ShowNews | bot.py:144-156 | A non-member gets the members-only notice, a member the news. |
| RidnessBot.Bot.ChooseCategory | bot.py:159-168 | Gated. An empty catalog gives the empty-catalog reply, otherwise the category menu. |
| RidnessBot.Bot.PreorderFromMenu | bot.py:171-176 | The membership gate, then the same replies as the category menu. |
| RidnessBot.Bot.ShowItems | bot.py:179-213 | A non-member or an empty category leaves `order_map` unchanged. Otherwise: one card per item in order, each carrying its own key; then the closing prompt; `order_map` is the old table with every key of the category registered (`Rendered`). |
| RidnessBot.Bot.OrderStart | bot.py:222-243 | For a non-member, or a key not in `order_map`, an alert and no form. Otherwise the item exists, and PreOrder starts seeded with the item's name and the first matching member record's name and contact. |
| RidnessBot.Bot.ShowContacts | bot.py:290-309 | Gated. A member gets the contacts. |
| RidnessBot.Bot.ShowAddresses | bot.py:318-329 | Gated. A member gets the addresses. |
| RidnessBot.Bot.ClubEntry | bot.py:340-351 | An existing member gets the promo code and no form. Anyone else starts ClubJoin at the name step. |
| RidnessBot.Bot.ContinueForm | bot.py:250-426 | One form step (`Advance`) and its effect (`EffectOf`). The form moves on, or it is removed. The counter grows by the step's increment. The member list grows by the appended record, if any. Unique user ids stay unique. |
| RidnessBot.Bot.CmdStats | bot.py:433-439 | A non-administrator gets no access. The administrator gets the member count and the counter. |
| RidnessBot.Bot.CmdAddSale | bot.py:442-453 | A non-administrator changes nothing. For the administrator, an integer argument N adds N and reports the new total. A missing or non-integer argument leaves the counter unchanged and shows the usage hint. |
| RidnessBot.Bot.Dispatch | bot.py:122-460 | For a user with no form, the reply and the new state of the handler the text is routed to. `/start` greets by membership and `/ping` answers. A gated handler answers a non-member with the members-only notice and changes nothing, and gives a member its reply. A category renders that category (`Rendered`, one card per item). The club entry gives a member the promo code and starts ClubJoin for anyone else. `/stats` and `/add_sale` act as `CmdStats` and `CmdAddSale` on `get_args()`. Anything else gets the fallback menu. No other route touches `order_map`, the forms or the counter. |
| RidnessBot.Bot.HandleMessage | bot.py:122-460 | `Valid` is kept and only the sender's form can change. A message inside a form is exactly `ContinueForm`'s step: the form moves on or ends, the counter and member list change by its effect, and `order_map` is untouched. Outside a form, no member is appended, nothing is sent to the administrator or the group, and the reply and new state are those of the routed handler, as in `Dispatch`. |
| RidnessBot.Bot.HandleCallback | bot.py:222-315 | `Valid` is kept. During a form, a button press reaches no handler and changes nothing. Outside a form, `order:` data is `order_start` and `copy_phone` shows the phone. Any other data is unhandled. |

## Left out

- Telegram I/O (sending, photos, inline and reply keyboards, the texts of the replies): replies and notices are values. The order between a reply and the notices of the same step is not modelled.
- JSON file I/O: the catalog is a constant of the bot, and the member list lives in memory. `load_club` after `save_club` is assumed to return what was saved.
- A missing member file and corrupt JSON are not modelled.
- The clock: the enrollment timestamp is a parameter of `HandleMessage`, kept as an opaque string.
- Environment configuration: the administrator id, group id and bot username are constructor parameters. The token check, logging and throttling are not modelled.
- Send failures and other exceptions: every send here succeeds. In the source, a failed send leaves the form where it was:
  - if sending the card fails after `order_count += 1` (bot.py:273-283), the user stays at the comment step and a resend bumps the counter again;
  - if the notice to the administrator fails after the record is saved (bot.py:417-422), the user stays at the consent step while already being a member, and a second "Согласен" appends a second record with the same user id. In the source, both the uniqueness of ids and the second clause of `Valid()` depend on every send succeeding.
- Concurrency: each message and callback is one atomic step. The race between `club_entry`'s check and the append in `cj_finish` under duplicate delivery is not modelled, and no uniqueness guard is added at commit.
- Group chats: forms are keyed by user id, which equals the chat id in a private chat.
- Non-text messages (stickers, photos) are not modelled; every message has a text.
- `Text.LowerChar`: only ASCII, Latin-1 and the Cyrillic U+0400–U+042F capitals are lower-cased. Python's full Unicode case mapping is not modelled.
- `Text.ParseInt`: only ASCII digits are accepted, whereas Python's `int()` also accepts other Unicode decimal digits.
- `Commands.CommandOf`: aiogram's `ignore_caption` and prefix options and entity-based parsing are not modelled.
- `/ping`'s reply is modelled inline in `Dispatch`, and the static informational handlers (news, contacts, addresses, the phone alert) only as their gate, where they have one, and a fixed reply.
