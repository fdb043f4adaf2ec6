/**
 * The two multi-step forms, PreOrder (quantity, comment) and ClubJoin (name,
 * phone, e-mail, consent), as one tagged-union state per user and a step
 * function from (state, message text) to the next state or the end of the form.
 */
module Forms {
  import opened Wrappers
  import opened Text
  import opened Membership
  import opened Replies

  const CANCEL := "отмена"
  const CANCEL_CAPS := "ОТМЕНА"
  const SKIP := "Пропустить"
  const AGREE := "Согласен"
  const NO_COMMENT := "(нет)"
  const SOURCE_TAG := "telegram_bot"

  /** `is_cancel`: the text, lower-cased, is the cancel word. */
  predicate IsCancel(text: string) {
    |text| > 0 && Lower(text) == CANCEL
  }

  lemma CancelLetters(i: nat)
    requires i < |CANCEL|
    ensures '\U{430}' <= CANCEL[i] <= '\U{44F}'
    ensures CANCEL_CAPS[i] as int == CANCEL[i] as int - 32
  {
    assert i == 0 || i == 1 || i == 2 || i == 3 || i == 4 || i == 5;
  }

  /** A text cancels exactly when it spells the cancel word with each letter in either case. */
  lemma IsCancel_Spelling(text: string)
    ensures IsCancel(text) <==> |text| == |CANCEL|
                                 && forall i :: 0 <= i < |text| ==> text[i] == CANCEL[i] || text[i] == CANCEL_CAPS[i]
  {
    if |text| == |CANCEL| {
      forall i | 0 <= i < |text|
        ensures Lower(text)[i] == CANCEL[i] <==> text[i] == CANCEL[i] || text[i] == CANCEL_CAPS[i]
      {
        CancelLetters(i);
        LowerChar_CyrillicPreimage(text[i], CANCEL[i]);
      }
      assert Lower(text) == CANCEL <==> forall i :: 0 <= i < |text| ==> Lower(text)[i] == CANCEL[i];
    }
  }

  lemma IsCancel_Examples()
    ensures IsCancel("отмена") && IsCancel("Отмена") && IsCancel("ОТМЕНА")
    ensures !IsCancel("") && !IsCancel(SKIP) && !IsCancel(AGREE) && !IsCancel("Отмена!")
  {
    IsCancel_Spelling("отмена");
    IsCancel_Spelling("Отмена");
    IsCancel_Spelling("ОТМЕНА");
  }

  /** The state of one user's form and the fields it has collected so far. */
  datatype Session =
    | AwaitQty(item: string, name: string, contact: string)                  // PreOrder.qty
    | AwaitComment(item: string, name: string, contact: string, qty: string) // PreOrder.comment
    | AwaitName                                                              // ClubJoin.name
    | AwaitPhone(name: string)                                               // ClubJoin.phone
    | AwaitEmail(name: string, phone: string)                                // ClubJoin.email
    | AwaitAgree(name: string, phone: string, email: string)                 // ClubJoin.agree
  {
    predicate IsPreOrder() {
      AwaitQty? || AwaitComment?
    }

    /** The collected fields, in the order the form gathered them. */
    function Collected(): (fields: seq<string>) {
      match this
      case AwaitQty(item, name, contact) => [item, name, contact]
      case AwaitComment(item, name, contact, qty) => [item, name, contact, qty]
      case AwaitName => []
      case AwaitPhone(name) => [name]
      case AwaitEmail(name, phone) => [name, phone]
      case AwaitAgree(name, phone, email) => [name, phone, email]
    }

    /** How many more messages the form needs before it ends. */
    function StepsLeft(): (n: nat) {
      match this
      case AwaitQty(_, _, _) => 2
      case AwaitComment(_, _, _, _) => 1
      case AwaitName => 4
      case AwaitPhone(_) => 3
      case AwaitEmail(_, _) => 2
      case AwaitAgree(_, _, _) => 1
    }

    /** The question the bot asks on entering this state. */
    function Prompt(): (p: Prompt) {
      match this
      case AwaitQty(_, _, _) => AskQty
      case AwaitComment(_, _, _, _) => AskComment
      case AwaitName => AskName
      case AwaitPhone(_) => AskPhone
      case AwaitEmail(_, _) => AskEmail
      case AwaitAgree(_, _, _) => AskConsent
    }
  }

  /** A completed form. `comment` is None when the user skipped it. */
  datatype Form =
    | PreOrderForm(item: string, name: string, contact: string, qty: string, comment: Option<string>)
    | Enrollment(name: string, phone: string, email: string)
  {
    function Fields(): (fields: seq<string>) {
      match this
      case PreOrderForm(item, name, contact, qty, _) => [item, name, contact, qty]
      case Enrollment(name, phone, email) => [name, phone, email]
    }
  }

  /** What one message does to a form. */
  datatype Step =
    | Continue(next: Session)
    | Completed(form: Form)
    | Cancelled
    | Declined   // ClubJoin's consent refused: the form ends without a member

  /**
   * One message in an active form: the handlers `po_comment`, `po_finish`,
   * `cj_phone`, `cj_email`, `cj_agree` and `cj_finish`, each of which checks
   * the cancel word first.
   */
  function Advance(s: Session, text: string): (r: Step)
    ensures r.Cancelled? <==> IsCancel(text)
    ensures r.Declined? <==> !IsCancel(text) && s.AwaitAgree? && text != AGREE
    ensures r.Completed? <==> !IsCancel(text) && (s.AwaitComment? || (s.AwaitAgree? && text == AGREE))
    ensures r.Continue? ==> && r.next.IsPreOrder() == s.IsPreOrder()
                            && r.next.Collected() == s.Collected() + [text]
                            && r.next.StepsLeft() + 1 == s.StepsLeft()
    ensures r.Completed? ==> r.form.PreOrderForm? == s.IsPreOrder() && r.form.Fields() == s.Collected()
    ensures r.Completed? && r.form.PreOrderForm? ==> r.form.comment == (if text == SKIP then None else Some(text))
  {
    if IsCancel(text) then Cancelled
    else
      match s
      case AwaitQty(item, name, contact) => Continue(AwaitComment(item, name, contact, text))
      case AwaitComment(item, name, contact, qty) =>
        Completed(PreOrderForm(item, name, contact, qty, if text != SKIP then Some(text) else None))
      case AwaitName => Continue(AwaitPhone(text))
      case AwaitPhone(name) => Continue(AwaitEmail(name, text))
      case AwaitEmail(name, phone) => Continue(AwaitAgree(name, phone, text))
      case AwaitAgree(name, phone, email) =>
        if text != AGREE then Declined else Completed(Enrollment(name, phone, email))
  }

  /** The card `po_finish` sends: `data.get('comment', '(нет)')` in the comment line. */
  function CardOf(f: Form): (c: Card)
    requires f.PreOrderForm?
    ensures [c.item, c.name, c.contact, c.qty] == f.Fields()
    ensures f.comment.Some? ==> c.comment == f.comment.value
    ensures f.comment.None? ==> c.comment == NO_COMMENT
  {
    Card(f.item, f.name, f.contact, f.qty, f.comment.GetOr(NO_COMMENT), SOURCE_TAG)
  }

  /** What a step does outside the form: the reply, the notices, the member to append, the counter increment. */
  datatype Effect = Effect(reply: Reply, notices: seq<Notice>, enroll: Option<Member>, bump: nat)

  function EffectOf(step: Step, user: int, now: string, adminId: int, groupId: int): (e: Effect) {
    match step
    case Continue(next) => Effect(Ask(next.Prompt()), [], None, 0)
    case Cancelled => Effect(CancelledReply, [], None, 0)
    case Declined => Effect(ConsentRequired, [], None, 0)
    case Completed(form) =>
      match form
      case PreOrderForm(_, _, _, _, _) =>
        var card := CardOf(form);
        Effect(OrderThanks, [Notice(adminId, OrderCard(card)), Notice(groupId, OrderCard(card))], None, 1)
      case Enrollment(name, phone, email) =>
        Effect(Joined(PROMO), [Notice(adminId, NewMember(name, phone, email))],
               Some(Member(user, name, phone, email, now)), 0)
  }

  /** Cancelling in any state ends the form and touches neither the counter nor the member list. */
  lemma Cancel_NoEffect(s: Session, text: string, user: int, now: string, adminId: int, groupId: int)
    requires IsCancel(text)
    ensures EffectOf(Advance(s, text), user, now, adminId, groupId) == Effect(CancelledReply, [], None, 0)
  {
  }

  /**
   * Completing a preorder bumps the counter by one and sends one and the same
   * card to the administrator, then the group; the skip word leaves "(нет)".
   */
  lemma PreOrder_Completion(s: Session, text: string, user: int, now: string, adminId: int, groupId: int)
    requires s.AwaitComment? && !IsCancel(text)
    ensures var e := EffectOf(Advance(s, text), user, now, adminId, groupId);
            var card := Card(s.item, s.name, s.contact, s.qty, if text == SKIP then NO_COMMENT else text, SOURCE_TAG);
            && e.bump == 1 && e.enroll == None && e.reply == OrderThanks
            && e.notices == [Notice(adminId, OrderCard(card)), Notice(groupId, OrderCard(card))]
  {
  }

  /**
   * At the consent step only the exact agree word appends a member, built
   * from the collected fields; any other non-cancel text appends nothing.
   */
  lemma Agree_Enrolls(s: Session, text: string, user: int, now: string, adminId: int, groupId: int)
    requires s.AwaitAgree? && !IsCancel(text)
    ensures var e := EffectOf(Advance(s, text), user, now, adminId, groupId);
            && e.bump == 0
            && (text == AGREE ==> e.enroll == Some(Member(user, s.name, s.phone, s.email, now))
                                  && e.notices == [Notice(adminId, NewMember(s.name, s.phone, s.email))])
            && (text != AGREE ==> e.enroll == None && e.notices == [] && e.reply == ConsentRequired)
  {
  }

  /** Only a completed ClubJoin appends a member, and only a completed PreOrder bumps the counter. */
  lemma Effect_Exclusive(s: Session, text: string, user: int, now: string, adminId: int, groupId: int)
    ensures var e := EffectOf(Advance(s, text), user, now, adminId, groupId);
            && (e.enroll.Some? ==> s.AwaitAgree? && text == AGREE && e.enroll.value.userId == user)
            && (e.bump > 0 ==> e.bump == 1 && s.AwaitComment?)
  {
  }

  /** The form after a whole sequence of messages, stopping at the message that ends it. */
  function Feed(s: Session, texts: seq<string>): (r: Step)
    decreases |texts|
  {
    if |texts| == 0 then Continue(s)
    else
      var r := Advance(s, texts[0]);
      if r.Continue? then Feed(r.next, texts[1..]) else r
  }

  /** No form outlives `StepsLeft()` messages. */
  lemma {:induction false} Feed_Ends(s: Session, texts: seq<string>)
    requires |texts| >= s.StepsLeft()
    ensures !Feed(s, texts).Continue?
    decreases |texts|
  {
    var r := Advance(s, texts[0]);
    if r.Continue? {
      Feed_Ends(r.next, texts[1..]);
    }
  }

  /** A preorder that is never cancelled completes, with the collected fields. */
  lemma {:induction false} Feed_PreOrderCompletes(s: Session, texts: seq<string>)
    requires s.IsPreOrder() && |texts| >= s.StepsLeft()
    requires forall i :: 0 <= i < |texts| ==> !IsCancel(texts[i])
    ensures Feed(s, texts).Completed? && Feed(s, texts).form.PreOrderForm?
    ensures Feed(s, texts).form.Fields()[..3] == s.Collected()[..3]
    decreases |texts|
  {
    var r := Advance(s, texts[0]);
    if r.Continue? {
      Feed_PreOrderCompletes(r.next, texts[1..]);
    }
  }

  /** The ClubJoin form answered by name, phone, e-mail and consent. */
  lemma ClubJoin_Answers(name: string, phone: string, email: string, consent: string)
    requires !IsCancel(name) && !IsCancel(phone) && !IsCancel(email) && !IsCancel(consent)
    ensures Feed(AwaitName, [name, phone, email, consent])
            == if consent == AGREE then Completed(Enrollment(name, phone, email)) else Declined
  {
    var texts := [name, phone, email, consent];
    assert texts[1..] == [phone, email, consent];
    assert texts[1..][1..] == [email, consent];
    assert texts[1..][1..][1..] == [consent];
    assert Feed(AwaitName, texts) == Feed(AwaitPhone(name), [phone, email, consent]);
    assert Feed(AwaitPhone(name), [phone, email, consent]) == Feed(AwaitEmail(name, phone), [email, consent]);
    assert Feed(AwaitEmail(name, phone), [email, consent]) == Feed(AwaitAgree(name, phone, email), [consent]);
  }

  /** A member's preorder answered with a quantity and the skip word has no comment. */
  lemma PreOrder_Skip(item: string, name: string, contact: string, qty: string)
    requires !IsCancel(qty)
    ensures Feed(AwaitQty(item, name, contact), [qty, SKIP]) == Completed(PreOrderForm(item, name, contact, qty, None))
  {
    IsCancel_Examples();
    assert [qty, SKIP][1..] == [SKIP];
  }
}
