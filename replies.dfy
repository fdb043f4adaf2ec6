/**
 * What the bot sends, as tags rather than message bodies: the reply to the
 * user who wrote, and the notices it sends to the administrator and the group.
 */
module Replies {

  /** The question a form step asks next. */
  datatype Prompt =
    | AskQty        // "Количество:"
    | AskComment    // "Комментарий (или «Пропустить»):"
    | AskName       // "Ваше имя и фамилия:"
    | AskPhone      // "Номер телефона:"
    | AskEmail      // "E-mail:"
    | AskConsent    // consent to the processing of personal data

  datatype Reply =
    | Greeting(member: bool)       // /start: the member welcome with the main menu, or the guest invitation
    | Pong
    | MembersOnly                  // require_membership: "Доступно только участникам RIDNESS Club."
    | News
    | CatalogEmpty
    | CategoryMenu
    | CategoryEmpty
    | ItemCard(name: string, price: string, desc: string, key: string)  // one catalog item with its preorder button
    | ChooseAnother
    | AlertMembersOnly             // callback alert "Только для участников клуба"
    | AlertBadItem                 // callback alert "Ошибка товара"
    | Ask(prompt: Prompt)
    | CancelledReply               // "Отменено."
    | OrderThanks
    | Contacts
    | PhoneAlert
    | Addresses
    | AlreadyMember(promo: string)
    | ConsentRequired              // "Для вступления требуется согласие."
    | Joined(promo: string)
    | NoAccess                     // "Нет доступа."
    | Stats(members: nat, orders: int)
    | SaleAdded(added: int, total: int)
    | SaleUsage                    // "Используйте: /add_sale N"
    | ChooseAction(member: bool)   // the fallback, with the member or the guest keyboard

  /** The preorder card sent to the administrator and the group, field by field. */
  datatype Card = Card(item: string, name: string, contact: string, qty: string, comment: string, source: string)

  datatype Payload =
    | OrderCard(card: Card)
    | NewMember(name: string, phone: string, email: string)

  /** A message to a chat other than the sender's. */
  datatype Notice = Notice(to: int, payload: Payload)

  const PROMO := "RIDNESS10"
}
