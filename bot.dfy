/**
 * The bot's handlers over its shared state: the per-user form registry, the
 * member list, the selection-key table and the preorder counter. A message
 * from a user with an active form goes to that form; otherwise the first
 * handler, in registration order, whose filter accepts the text takes it.
 */
module RidnessBot {
  import opened Wrappers
  import opened Text
  import opened Commands
  import opened Membership
  import opened Catalog
  import opened Replies
  import opened Forms

  const NEWS_LABEL := "Новости"
  const CATALOG_LABEL := "Каталог"
  const PREORDER_LABEL := "Предзаказ"
  const CONTACTS_LABEL := "Контакты"
  const ADDRESSES_LABEL := "Адреса"
  const CLUB_BUTTON := "\U{1F40E} RIDNESS Club"
  const CLUB_MARK := "\U{1F40E}"
  const CLUB_WORDS := "ridness club"
  const COPY_PHONE := "copy_phone"

  /** The filter of `club_entry`: "ridness club" anywhere in the lower-cased text, or the horse emoji first. */
  predicate IsClubEntry(text: string) {
    |text| > 0 && (Contains(Lower(text), CLUB_WORDS) || StartsWith(text, CLUB_MARK))
  }

  /** The handlers that run when the user has no active form. */
  datatype Handler =
    | StartCmd | PingCmd | NewsMenu | CatalogMenu | PreorderMenu | ItemsMenu
    | ContactsMenu | AddressesMenu | ClubMenu | StatsCmd | AddSaleCmd | Fallback
  {
    /** The handlers that answer a non-member with `require_membership` and stop. */
    predicate IsGated() {
      NewsMenu? || CatalogMenu? || PreorderMenu? || ItemsMenu? || ContactsMenu? || AddressesMenu?
    }
  }

  /** The first registered stateless handler whose filter accepts `text`. */
  function Route(text: string, catalog: Catalog, username: string): (h: Handler) {
    var cmd := CommandOf(text, username);
    if cmd == Some("start") then StartCmd
    else if cmd == Some("ping") then PingCmd
    else if text == NEWS_LABEL then NewsMenu
    else if text == CATALOG_LABEL then CatalogMenu
    else if text == PREORDER_LABEL then PreorderMenu
    else if |text| > 0 && text in catalog then ItemsMenu
    else if text == CONTACTS_LABEL then ContactsMenu
    else if text == ADDRESSES_LABEL then AddressesMenu
    else if IsClubEntry(text) then ClubMenu
    else if cmd == Some("stats") then StatsCmd
    else if cmd == Some("add_sale") then AddSaleCmd
    else Fallback
  }

  /** "Новости" reaches `show_news`, whatever the catalog holds: that filter comes before `show_items`. */
  lemma Route_News(catalog: Catalog, username: string)
    ensures Route(NEWS_LABEL, catalog, username) == NewsMenu
  {
    NotCommand(NEWS_LABEL, username);
  }

  /** "Каталог" reaches `choose_category`, whatever the catalog holds. */
  lemma Route_Catalog(catalog: Catalog, username: string)
    ensures Route(CATALOG_LABEL, catalog, username) == CatalogMenu
  {
    NotCommand(CATALOG_LABEL, username);
    assert CATALOG_LABEL[0] != NEWS_LABEL[0];
  }

  /** "Предзаказ" reaches `preorder_from_menu`, whatever the catalog holds. */
  lemma Route_Preorder(catalog: Catalog, username: string)
    ensures Route(PREORDER_LABEL, catalog, username) == PreorderMenu
  {
    NotCommand(PREORDER_LABEL, username);
  }

  /** "Контакты" reaches `show_contacts` unless a category has that name: `show_items` comes first. */
  lemma Route_Contacts(catalog: Catalog, username: string)
    requires CONTACTS_LABEL !in catalog
    ensures Route(CONTACTS_LABEL, catalog, username) == ContactsMenu
  {
    NotCommand(CONTACTS_LABEL, username);
  }

  /** "Адреса" reaches `show_addresses` unless a category has that name. */
  lemma Route_Addresses(catalog: Catalog, username: string)
    requires ADDRESSES_LABEL !in catalog
    ensures Route(ADDRESSES_LABEL, catalog, username) == AddressesMenu
  {
    NotCommand(ADDRESSES_LABEL, username);
  }

  /** The club button reaches `club_entry` unless a category has that name. */
  lemma Route_ClubButton(catalog: Catalog, username: string)
    requires CLUB_BUTTON !in catalog
    ensures Route(CLUB_BUTTON, catalog, username) == ClubMenu
  {
    NotCommand(CLUB_BUTTON, username);
    assert StartsWith(CLUB_BUTTON, CLUB_MARK);
  }

  /** A category name goes to `show_items` before any handler registered after it, commands included. */
  lemma Route_Category(text: string, catalog: Catalog, username: string)
    requires |text| > 0 && text in catalog
    requires text != NEWS_LABEL && text != CATALOG_LABEL && text != PREORDER_LABEL
    requires CommandOf(text, username) != Some("start") && CommandOf(text, username) != Some("ping")
    ensures Route(text, catalog, username) == ItemsMenu
  {
  }

  /** The club filter is tried before `/stats` and `/add_sale`. */
  lemma Route_ClubBeforeAdmin(text: string, catalog: Catalog, username: string)
    requires IsClubEntry(text) && text !in catalog
    requires text != NEWS_LABEL && text != CATALOG_LABEL && text != PREORDER_LABEL
    requires text != CONTACTS_LABEL && text != ADDRESSES_LABEL
    requires CommandOf(text, username) != Some("start") && CommandOf(text, username) != Some("ping")
    ensures Route(text, catalog, username) == ClubMenu
  {
  }

  /**
   * A command whose arguments mention the club, such as "/stats ridness club",
   * goes to `club_entry`: its filter is tried before `/stats` and `/add_sale`.
   */
  lemma Route_CommandMentioningClub(name: string, rest: string, catalog: Catalog, username: string)
    requires forall i :: 0 <= i < |name| ==> !IsSpace(name[i]) && name[i] != '@'
    requires |rest| > 0 && IsSpace(rest[0]) && Contains(Lower(rest), CLUB_WORDS)
    requires Lower(name) != "start" && Lower(name) != "ping"
    requires "/" + name + rest !in catalog
    ensures CommandOf("/" + name + rest, username) == Some(Lower(name))
    ensures Route("/" + name + rest, catalog, username) == ClubMenu
  {
    var text := "/" + name + rest;
    Command_Plain(name, rest, username);
    Lower_Append("/" + name, rest);
    Contains_Prefixed(Lower("/" + name), Lower(rest), CLUB_WORDS);
    assert text[0] == '/';
    Route_ClubBeforeAdmin(text, catalog, username);
  }

  /** `/start` reaches `cmd_start` whatever the catalog holds: it is registered first. */
  lemma Route_Start(text: string, catalog: Catalog, username: string)
    requires CommandOf(text, username) == Some("start")
    ensures Route(text, catalog, username) == StartCmd
  {
  }

  /** `/ping` reaches `cmd_ping` whatever the catalog holds: only `cmd_start` comes before it. */
  lemma Route_Ping(text: string, catalog: Catalog, username: string)
    requires CommandOf(text, username) == Some("ping")
    ensures Route(text, catalog, username) == PingCmd
  {
  }

  /** `/stats` reaches `cmd_stats` unless a category has that name or the club filter accepts it. */
  lemma Route_Stats(text: string, catalog: Catalog, username: string)
    requires CommandOf(text, username) == Some("stats")
    requires text !in catalog && !IsClubEntry(text)
    ensures Route(text, catalog, username) == StatsCmd
  {
    Command_Lead(text, username);
  }

  /** `/add_sale` reaches `cmd_add_sale` unless a category has that name or the club filter accepts it. */
  lemma Route_AddSale(text: string, catalog: Catalog, username: string)
    requires CommandOf(text, username) == Some("add_sale")
    requires text !in catalog && !IsClubEntry(text)
    ensures Route(text, catalog, username) == AddSaleCmd
  {
    Command_Lead(text, username);
  }

  /** A command too short to hold "ridness club" and starting with '/' is not taken by the club filter. */
  lemma NotClubEntry_Short(text: string)
    requires 0 < |text| < |CLUB_WORDS| && text[0] == '/'
    ensures !IsClubEntry(text)
  {
    Contains_Short(Lower(text), CLUB_WORDS);
  }

  /** The administrator's "/add_sale 5" reaches `cmd_add_sale`, whose argument reads as 5. */
  lemma Route_AddSaleFive(catalog: Catalog, username: string)
    requires "/add_sale 5" !in catalog
    ensures Route("/add_sale 5", catalog, username) == AddSaleCmd
    ensures ArgsOf("/add_sale 5") == Some("5") && ParseInt("5") == Some(5)
  {
    AddSaleFive(username);
    NotClubEntry_Short("/add_sale 5");
    Route_AddSale("/add_sale 5", catalog, username);
  }

  class Bot {
    const adminId: int
    const groupId: int
    /** The bot's own username, against which a command's `@mention` is compared. */
    const username: string
    const catalog: Catalog

    /** The aiogram FSM storage: the active form of each user. */
    var sessions: map<int, Session>
    var members: seq<Member>
    /** The process-wide `order_map`. */
    var orderMap: SelectionTable
    var orderCount: int

    ghost predicate Valid()
      reads this
    {
      && TableInto(catalog, orderMap)
      && (forall u :: u in sessions && !sessions[u].IsPreOrder() ==> !IsMember(members, u))
    }

    constructor (adminId: int, groupId: int, username: string, catalog: Catalog, members: seq<Member>)
      ensures Valid()
      ensures this.adminId == adminId && this.groupId == groupId && this.username == username
      ensures this.catalog == catalog && this.members == members
      ensures sessions == map[] && orderMap == map[] && orderCount == 0
    {
      this.adminId := adminId;
      this.groupId := groupId;
      this.username := username;
      this.catalog := catalog;
      this.members := members;
      sessions := map[];
      orderMap := map[];
      orderCount := 0;
    }

    /** `cmd_start`: a greeting that depends on membership only. */
    method CmdStart(user: int) returns (r: Reply)
      ensures r == Greeting(IsMember(members, user))
    {
      r := Greeting(IsMember(members, user));
    }

    /** `show_news`. */
    method ShowNews(user: int) returns (r: Reply)
      ensures !IsMember(members, user) ==> r == MembersOnly
      ensures IsMember(members, user) ==> r == News
    {
      if !IsMember(members, user) {
        return MembersOnly;
      }
      r := News;
    }

    /** `choose_category`. */
    method ChooseCategory(user: int) returns (r: Reply)
      ensures !IsMember(members, user) ==> r == MembersOnly
      ensures IsMember(members, user) ==> r == if |catalog| == 0 then CatalogEmpty else CategoryMenu
    {
      if !IsMember(members, user) {
        return MembersOnly;
      }
      if |catalog| == 0 {
        return CatalogEmpty;
      }
      r := CategoryMenu;
    }

    /** `preorder_from_menu`: the membership gate, then `choose_category`. */
    method PreorderFromMenu(user: int) returns (r: Reply)
      ensures !IsMember(members, user) ==> r == MembersOnly
      ensures IsMember(members, user) ==> r == if |catalog| == 0 then CatalogEmpty else CategoryMenu
    {
      if !IsMember(members, user) {
        return MembersOnly;
      }
      r := ChooseCategory(user);
    }

    /** `show_contacts`. */
    method ShowContacts(user: int) returns (r: Reply)
      ensures !IsMember(members, user) ==> r == MembersOnly
      ensures IsMember(members, user) ==> r == Contacts
    {
      if !IsMember(members, user) {
        return MembersOnly;
      }
      r := Contacts;
    }

    /** `show_addresses`. */
    method ShowAddresses(user: int) returns (r: Reply)
      ensures !IsMember(members, user) ==> r == MembersOnly
      ensures IsMember(members, user) ==> r == Addresses
    {
      if !IsMember(members, user) {
        return MembersOnly;
      }
      r := Addresses;
    }

    /** `unknown`: the fallback, with the menu that fits the user. */
    method Unknown(user: int) returns (r: Reply)
      ensures r == ChooseAction(IsMember(members, user))
    {
      r := ChooseAction(IsMember(members, user));
    }

    /**
     * `show_items`: one card per item of the category, each carrying its
     * selection key, which the loop registers in `order_map`.
     */
    method ShowItems(user: int, cat: string) returns (replies: seq<Reply>)
      requires Valid()
      modifies this`orderMap
      ensures Valid()
      ensures !IsMember(members, user) ==> replies == [MembersOnly] && orderMap == old(orderMap)
      ensures IsMember(members, user) && ItemsOf(catalog, cat) == [] ==>
                replies == [CategoryEmpty] && orderMap == old(orderMap)
      ensures IsMember(members, user) && ItemsOf(catalog, cat) != [] ==>
                var items := ItemsOf(catalog, cat);
                && orderMap == Rendered(old(orderMap), cat, |items|)
                && |replies| == |items| + 1 && replies[|items|] == ChooseAnother
                && forall i :: 0 <= i < |items| ==>
                     replies[i] == ItemCard(items[i].name, items[i].price, items[i].desc, Key(cat, i))
    {
      if !IsMember(members, user) {
        return [MembersOnly];
      }
      var items := ItemsOf(catalog, cat);
      if |items| == 0 {
        return [CategoryEmpty];
      }
      replies := [];
      for idx := 0 to |items|
        invariant orderMap == Rendered(old(orderMap), cat, idx)
        invariant |replies| == idx
        invariant forall i :: 0 <= i < idx ==>
                    replies[i] == ItemCard(items[i].name, items[i].price, items[i].desc, Key(cat, i))
      {
        var key := Key(cat, idx);
        orderMap := orderMap[key := ItemRef(cat, idx)];
        var item := items[idx];
        replies := replies + [ItemCard(item.name, item.price, item.desc, key)];
      }
      replies := replies + [ChooseAnother];
      Rendered_Into(catalog, old(orderMap), cat, |items|);
    }

    /** `order_start`: the preorder button seeds PreOrder from the item and the member record. */
    method OrderStart(user: int, data: string) returns (r: Reply)
      requires Valid() && user !in sessions && StartsWith(data, ORDER_PREFIX)
      modifies this`sessions
      ensures Valid()
      ensures !IsMember(members, user) ==> r == AlertMembersOnly && sessions == old(sessions)
      ensures IsMember(members, user) && SelectionKey(data) !in orderMap ==>
                r == AlertBadItem && sessions == old(sessions)
      ensures IsMember(members, user) && SelectionKey(data) in orderMap ==>
                var ref := orderMap[SelectionKey(data)];
                var m := GetMember(members, user).value;
                && ref.cat in catalog && ref.idx < |catalog[ref.cat]|
                && r == Ask(AskQty)
                && sessions == old(sessions)[user := AwaitQty(ItemAt(catalog, ref).name, m.name, ContactOf(m))]
    {
      if !IsMember(members, user) {
        return AlertMembersOnly;
      }
      var key := SelectionKey(data);
      if key !in orderMap {
        return AlertBadItem;
      }
      var ref := orderMap[key];
      var item := ItemAt(catalog, ref);
      var found := GetMember(members, user);
      var name := if found.Some? then found.value.name else "";
      var contact := if found.Some? then ContactOf(found.value) else "";
      sessions := sessions[user := AwaitQty(item.name, name, contact)];
      r := Ask(AskQty);
    }

    /** `club_entry`: a member gets the promo code; anyone else starts the ClubJoin form. */
    method ClubEntry(user: int) returns (r: Reply)
      requires Valid() && user !in sessions
      modifies this`sessions
      ensures Valid()
      ensures IsMember(members, user) ==> r == AlreadyMember(PROMO) && sessions == old(sessions)
      ensures !IsMember(members, user) ==> r == Ask(AskName) && sessions == old(sessions)[user := AwaitName]
    {
      if IsMember(members, user) {
        return AlreadyMember(PROMO);
      }
      sessions := sessions[user := AwaitName];
      r := Ask(AwaitName.Prompt());
    }

    /**
     * A message from a user with an active form: one step of the form, then
     * what the step does outside it (counter, member list, notices).
     */
    method ContinueForm(user: int, text: string, now: string) returns (replies: seq<Reply>, notices: seq<Notice>)
      requires Valid() && user in sessions
      modifies this`sessions, this`members, this`orderCount
      ensures Valid()
      ensures var step := Advance(old(sessions)[user], text);
              var e := EffectOf(step, user, now, adminId, groupId);
              && replies == [e.reply] && notices == e.notices
              && sessions == (if step.Continue? then old(sessions)[user := step.next] else old(sessions) - {user})
              && members == old(members) + OptionToSeq(e.enroll)
              && orderCount == old(orderCount) + e.bump
      ensures UniqueIds(old(members)) ==> UniqueIds(members)
    {
      var s := sessions[user];
      var step := Advance(s, text);
      match step {
        case Continue(next) =>
          sessions := sessions[user := next];
          replies, notices := [Ask(next.Prompt())], [];
        case Cancelled =>
          sessions := sessions - {user};
          replies, notices := [CancelledReply], [];
        case Declined =>
          sessions := sessions - {user};
          replies, notices := [ConsentRequired], [];
        case Completed(form) =>
          if form.PreOrderForm? {
            orderCount := orderCount + 1;
            var card := CardOf(form);
            notices := [Notice(adminId, OrderCard(card)), Notice(groupId, OrderCard(card))];
            replies := [OrderThanks];
          } else {
            var m := Member(user, form.name, form.phone, form.email, now);
            forall u | u in sessions && u != user && !sessions[u].IsPreOrder()
              ensures !IsMember(members + [m], u)
            {
              IsMember_Append(members, m, u);
            }
            if UniqueIds(members) {
              UniqueIds_Append(members, m);
            }
            members := members + [m];
            notices := [Notice(adminId, NewMember(form.name, form.phone, form.email))];
            replies := [Joined(PROMO)];
          }
          sessions := sessions - {user};
      }
    }

    /** `cmd_stats`: member and preorder counts, for the administrator only. */
    method CmdStats(user: int) returns (r: Reply)
      ensures user != adminId ==> r == NoAccess
      ensures user == adminId ==> r == Stats(|members|, orderCount)
    {
      if user != adminId {
        return NoAccess;
      }
      r := Stats(|members|, orderCount);
    }

    /** `cmd_add_sale`: the administrator adds `int(args)` to the counter; an unreadable argument changes nothing. */
    method CmdAddSale(user: int, args: Option<string>) returns (r: Reply)
      modifies this`orderCount
      ensures user != adminId ==> r == NoAccess && orderCount == old(orderCount)
      ensures user == adminId && args.Some? && ParseInt(args.value).Some? ==>
                orderCount == old(orderCount) + ParseInt(args.value).value
                && r == SaleAdded(ParseInt(args.value).value, orderCount)
      ensures user == adminId && (args.None? || ParseInt(args.value).None?) ==>
                r == SaleUsage && orderCount == old(orderCount)
    {
      if user != adminId {
        return NoAccess;
      }
      if args.None? {
        return SaleUsage;
      }
      match ParseInt(args.value) {
        case None =>
          r := SaleUsage;
        case Some(n) =>
          orderCount := orderCount + n;
          r := SaleAdded(n, orderCount);
      }
    }

    /** A text message from a user with no active form: the first stateless handler whose filter accepts it. */
    method Dispatch(user: int, text: string) returns (replies: seq<Reply>)
      requires Valid() && user !in sessions
      modifies this`sessions, this`orderMap, this`orderCount
      ensures Valid()
      ensures sessions - {user} == old(sessions) - {user}
      ensures UniqueIds(old(members)) ==> UniqueIds(members)
      ensures Route(text, catalog, username).IsGated() && !IsMember(members, user) ==>
                && replies == [MembersOnly]
                && sessions == old(sessions) && orderMap == old(orderMap) && orderCount == old(orderCount)
      ensures Route(text, catalog, username) == StartCmd ==>
                replies == [Greeting(IsMember(members, user))]
      ensures Route(text, catalog, username) == PingCmd ==> replies == [Pong]
      ensures Route(text, catalog, username) == NewsMenu && IsMember(members, user) ==>
                replies == [News]
      ensures Route(text, catalog, username) in {CatalogMenu, PreorderMenu}
              && IsMember(members, user) ==>
                replies == [if |catalog| == 0 then CatalogEmpty else CategoryMenu]
      ensures Route(text, catalog, username) == ItemsMenu && IsMember(members, user) ==>
                var items := ItemsOf(catalog, text);
                && orderMap == Rendered(old(orderMap), text, |items|)
                && (items == [] ==> replies == [CategoryEmpty])
                && (items != [] ==>
                      && |replies| == |items| + 1 && replies[|items|] == ChooseAnother
                      && forall i :: 0 <= i < |items| ==>
                           replies[i] == ItemCard(items[i].name, items[i].price, items[i].desc, Key(text, i)))
      ensures Route(text, catalog, username) == ContactsMenu && IsMember(members, user) ==>
                replies == [Contacts]
      ensures Route(text, catalog, username) == AddressesMenu && IsMember(members, user) ==>
                replies == [Addresses]
      ensures Route(text, catalog, username) == ClubMenu ==>
                if IsMember(members, user) then replies == [AlreadyMember(PROMO)] && sessions == old(sessions)
                else replies == [Ask(AskName)] && sessions == old(sessions)[user := AwaitName]
      ensures Route(text, catalog, username) == StatsCmd ==>
                replies == [if user == adminId then Stats(|members|, orderCount) else NoAccess]
      ensures Route(text, catalog, username) == AddSaleCmd ==>
                var n := if ArgsOf(text).Some? then ParseInt(ArgsOf(text).value) else None;
                if user != adminId then replies == [NoAccess]
                else if n.Some? then orderCount == old(orderCount) + n.value && replies == [SaleAdded(n.value, orderCount)]
                else replies == [SaleUsage] && orderCount == old(orderCount)
      ensures Route(text, catalog, username) == Fallback ==>
                replies == [ChooseAction(IsMember(members, user))]
      ensures !Route(text, catalog, username).ItemsMenu? ==> orderMap == old(orderMap)
      ensures !Route(text, catalog, username).ClubMenu? ==> sessions == old(sessions)
      ensures !(Route(text, catalog, username).AddSaleCmd? && user == adminId) ==>
                orderCount == old(orderCount)
    {
      var r: Reply;
      match Route(text, catalog, username) {
        case StartCmd => r := CmdStart(user);
        case PingCmd => r := Pong;
        case NewsMenu => r := ShowNews(user);
        case CatalogMenu => r := ChooseCategory(user);
        case PreorderMenu => r := PreorderFromMenu(user);
        case ItemsMenu =>
          replies := ShowItems(user, text);
          return;
        case ContactsMenu => r := ShowContacts(user);
        case AddressesMenu => r := ShowAddresses(user);
        case ClubMenu => r := ClubEntry(user);
        case StatsCmd => r := CmdStats(user);
        case AddSaleCmd => r := CmdAddSale(user, ArgsOf(text));
        case Fallback => r := Unknown(user);
      }
      replies := [r];
    }

    /** A text message from `user`; `now` is the clock reading a completed enrollment records. */
    method HandleMessage(user: int, text: string, now: string) returns (replies: seq<Reply>, notices: seq<Notice>)
      requires Valid()
      modifies this
      ensures Valid()
      ensures sessions - {user} == old(sessions) - {user}
      ensures UniqueIds(old(members)) ==> UniqueIds(members)
      ensures user in old(sessions) ==>
                var step := Advance(old(sessions)[user], text);
                var e := EffectOf(step, user, now, adminId, groupId);
                && replies == [e.reply] && notices == e.notices
                && sessions == (if step.Continue? then old(sessions)[user := step.next] else old(sessions) - {user})
                && members == old(members) + OptionToSeq(e.enroll)
                && orderCount == old(orderCount) + e.bump
                && orderMap == old(orderMap)
      ensures user !in old(sessions) ==> members == old(members) && notices == []
      ensures user !in old(sessions) && Route(text, catalog, username).IsGated() && !IsMember(members, user) ==>
                && replies == [MembersOnly]
                && sessions == old(sessions) && orderMap == old(orderMap) && orderCount == old(orderCount)
      ensures user !in old(sessions) && Route(text, catalog, username) == StartCmd ==>
                replies == [Greeting(IsMember(members, user))]
      ensures user !in old(sessions) && Route(text, catalog, username) == PingCmd ==> replies == [Pong]
      ensures user !in old(sessions) && Route(text, catalog, username) == NewsMenu && IsMember(members, user) ==>
                replies == [News]
      ensures user !in old(sessions) && Route(text, catalog, username) in {CatalogMenu, PreorderMenu}
              && IsMember(members, user) ==>
                replies == [if |catalog| == 0 then CatalogEmpty else CategoryMenu]
      ensures user !in old(sessions) && Route(text, catalog, username) == ItemsMenu && IsMember(members, user) ==>
                var items := ItemsOf(catalog, text);
                && orderMap == Rendered(old(orderMap), text, |items|)
                && (items == [] ==> replies == [CategoryEmpty])
                && (items != [] ==>
                      && |replies| == |items| + 1 && replies[|items|] == ChooseAnother
                      && forall i :: 0 <= i < |items| ==>
                           replies[i] == ItemCard(items[i].name, items[i].price, items[i].desc, Key(text, i)))
      ensures user !in old(sessions) && Route(text, catalog, username) == ContactsMenu && IsMember(members, user) ==>
                replies == [Contacts]
      ensures user !in old(sessions) && Route(text, catalog, username) == AddressesMenu && IsMember(members, user) ==>
                replies == [Addresses]
      ensures user !in old(sessions) && Route(text, catalog, username) == ClubMenu ==>
                if IsMember(members, user) then replies == [AlreadyMember(PROMO)] && sessions == old(sessions)
                else replies == [Ask(AskName)] && sessions == old(sessions)[user := AwaitName]
      ensures user !in old(sessions) && Route(text, catalog, username) == StatsCmd ==>
                replies == [if user == adminId then Stats(|members|, orderCount) else NoAccess]
      ensures user !in old(sessions) && Route(text, catalog, username) == AddSaleCmd ==>
                var n := if ArgsOf(text).Some? then ParseInt(ArgsOf(text).value) else None;
                if user != adminId then replies == [NoAccess]
                else if n.Some? then orderCount == old(orderCount) + n.value && replies == [SaleAdded(n.value, orderCount)]
                else replies == [SaleUsage] && orderCount == old(orderCount)
      ensures user !in old(sessions) && Route(text, catalog, username) == Fallback ==>
                replies == [ChooseAction(IsMember(members, user))]
      ensures user !in old(sessions) && !Route(text, catalog, username).ItemsMenu? ==> orderMap == old(orderMap)
      ensures user !in old(sessions) && !Route(text, catalog, username).ClubMenu? ==> sessions == old(sessions)
      ensures user !in old(sessions) && !(Route(text, catalog, username).AddSaleCmd? && user == adminId) ==>
                orderCount == old(orderCount)
    {
      if user in sessions {
        replies, notices := ContinueForm(user, text, now);
      } else {
        replies := Dispatch(user, text);
        notices := [];
      }
    }

    /** The administrator's "/add_sale 5", sent outside a form: the counter grows by 5 and the reply shows the total. */
    method AdminAddsFive(now: string) returns (replies: seq<Reply>, notices: seq<Notice>)
      requires Valid() && adminId !in sessions && "/add_sale 5" !in catalog
      modifies this
      ensures orderCount == old(orderCount) + 5 && replies == [SaleAdded(5, orderCount)]
      ensures sessions == old(sessions) && members == old(members) && orderMap == old(orderMap) && notices == []
    {
      Route_AddSaleFive(catalog, username);
      replies, notices := HandleMessage(adminId, "/add_sale 5", now);
    }

    /**
     * An inline-button press. Both callback handlers are registered for the
     * state with no form, so a press during a form reaches no handler.
     */
    method HandleCallback(user: int, data: string) returns (replies: seq<Reply>)
      requires Valid()
      modifies this`sessions
      ensures Valid()
      ensures sessions - {user} == old(sessions) - {user}
      ensures user in old(sessions) ==> replies == [] && sessions == old(sessions)
      ensures user !in old(sessions) && !StartsWith(data, ORDER_PREFIX) ==>
                sessions == old(sessions) && replies == if data == COPY_PHONE then [PhoneAlert] else []
      ensures user !in old(sessions) && StartsWith(data, ORDER_PREFIX) && !IsMember(members, user) ==>
                replies == [AlertMembersOnly] && sessions == old(sessions)
      ensures user !in old(sessions) && StartsWith(data, ORDER_PREFIX) && IsMember(members, user)
              && SelectionKey(data) !in orderMap ==>
                replies == [AlertBadItem] && sessions == old(sessions)
      ensures user !in old(sessions) && StartsWith(data, ORDER_PREFIX) && IsMember(members, user)
              && SelectionKey(data) in orderMap ==>
                var ref := orderMap[SelectionKey(data)];
                var m := GetMember(members, user).value;
                && ref.cat in catalog && ref.idx < |catalog[ref.cat]|
                && replies == [Ask(AskQty)]
                && sessions == old(sessions)[user := AwaitQty(ItemAt(catalog, ref).name, m.name, ContactOf(m))]
    {
      if user in sessions {
        return [];
      }
      if StartsWith(data, ORDER_PREFIX) {
        var r := OrderStart(user, data);
        replies := [r];
      } else if data == COPY_PHONE {
        replies := [PhoneAlert];
      } else {
        replies := [];
      }
    }
  }
}
