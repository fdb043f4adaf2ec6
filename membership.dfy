/** The club's member list (`club_members.json` held in memory) and the lookups over it. */
module Membership {
  import opened Wrappers

  /** One record of the member list; `joined` is the `"%Y-%m-%d %H:%M"` timestamp, kept opaque. */
  datatype Member = Member(userId: int, name: string, phone: string, email: string, joined: string)

  /** `is_member`: some record carries this user id. */
  predicate IsMember(members: seq<Member>, user: int) {
    exists i :: 0 <= i < |members| && members[i].userId == user
  }

  /** `get_member`: the FIRST record carrying this user id, or None. */
  function GetMember(members: seq<Member>, user: int): (r: Option<Member>)
    ensures r.Some? <==> IsMember(members, user)
    ensures r.Some? ==> r.value.userId == user
    ensures r.Some? ==> exists i :: 0 <= i < |members| && members[i] == r.value
                                    && forall j :: 0 <= j < i ==> members[j].userId != user
  {
    if |members| == 0 then None
    else if members[0].userId == user then Some(members[0])
    else
      var r := GetMember(members[1..], user);
      assert IsMember(members, user) ==> IsMember(members[1..], user) by {
        if IsMember(members, user) {
          var i :| 0 <= i < |members| && members[i].userId == user;
          assert members[1..][i - 1].userId == user;
        }
      }
      assert r.Some? ==> IsMember(members, user) by {
        if r.Some? {
          var i :| 0 <= i < |members| - 1 && members[1..][i] == r.value;
          assert members[i + 1].userId == user;
        }
      }
      assert r.Some? ==> exists i :: 0 <= i < |members| && members[i] == r.value
                                     && forall j :: 0 <= j < i ==> members[j].userId != user by {
        if r.Some? {
          var i :| 0 <= i < |members| - 1 && members[1..][i] == r.value
                   && forall j :: 0 <= j < i ==> members[1..][j].userId != user;
          assert members[i + 1] == r.value;
          assert forall j :: 0 <= j < i + 1 ==> members[j].userId != user by {
            forall j | 0 <= j < i + 1 ensures members[j].userId != user {
              if j > 0 { assert members[j] == members[1..][j - 1]; }
            }
          }
        }
      }
      r
  }

  /** `member.get("phone") or member.get("email", "")`: the phone, or the e-mail when the phone is empty. */
  function ContactOf(m: Member): (contact: string)
    ensures m.phone != "" ==> contact == m.phone
    ensures m.phone == "" ==> contact == m.email
  {
    if m.phone != "" then m.phone else m.email
  }

  /** No user id occurs twice. */
  predicate UniqueIds(members: seq<Member>) {
    forall i, j :: 0 <= i < |members| && 0 <= j < |members| && i != j ==> members[i].userId != members[j].userId
  }

  /** Appending a record changes membership for that record's user only. */
  lemma IsMember_Append(members: seq<Member>, m: Member, user: int)
    ensures IsMember(members + [m], user) <==> IsMember(members, user) || m.userId == user
  {
    var ms := members + [m];
    if IsMember(members, user) {
      var i :| 0 <= i < |members| && members[i].userId == user;
      assert ms[i].userId == user;
    }
    if m.userId == user {
      assert ms[|members|].userId == user;
    }
    if IsMember(ms, user) && m.userId != user {
      var i :| 0 <= i < |ms| && ms[i].userId == user;
      assert members[i].userId == user;
    }
  }

  /** Appending the record of a user who is not yet a member keeps the ids unique. */
  lemma UniqueIds_Append(members: seq<Member>, m: Member)
    requires UniqueIds(members) && !IsMember(members, m.userId)
    ensures UniqueIds(members + [m])
  {
    var ms := members + [m];
    forall i, j | 0 <= i < |ms| && 0 <= j < |ms| && i != j ensures ms[i].userId != ms[j].userId {
      if i == |members| {
        assert ms[j] == members[j];
      } else if j == |members| {
        assert ms[i] == members[i];
      }
    }
  }
}
