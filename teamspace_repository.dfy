/** `TeamspaceRepositoryImpl`: every call into the remote data source is wrapped so that an
    exception becomes `DataResult.Error` and a value becomes `DataResult.Success`; `getMembers`
    joins the members of a teamspace with their user records. The remote data source is an
    oracle: what each call returns or throws is a parameter. */
module TeamspaceRepository {
  import opened Common

  /** The fields of a membership record the join reads (`user_id`, `joined_at` in seconds). */
  datatype MemberDto = MemberDto(userId: string, joinedAtSeconds: Option<int>)

  /** The fields of a user record the join reads. */
  datatype UserDto = UserDto(userId: string, email: string, name: string)

  datatype MemberSummary = MemberSummary(userId: string, name: string, email: string, joinedAtEpochSeconds: Option<int>)

  /** The position of the first occurrence of `x` in `s`. */
  function FirstIndex(s: seq<string>, x: string): (k: nat)
    requires x in s
    ensures k < |s| && s[k] == x && x !in s[..k]
  {
    if s[0] == x then 0 else FirstIndex(s[1..], x) + 1
  }

  /** Kotlin's `distinct()`: each element once, at the place of its first occurrence. */
  function Distinct(s: seq<string>): (r: seq<string>)
    ensures forall y :: y in r <==> y in s
    ensures NoDuplicates(r)
    ensures |r| <= |s|
  {
    if s == [] then []
    else
      var d := Distinct(s[..|s| - 1]);
      if s[|s| - 1] in d then d else d + [s[|s| - 1]]
  }

  /** `distinct()` keeps the order of first occurrences. */
  lemma {:induction false} DistinctKeepsFirstOccurrenceOrder(s: seq<string>)
    ensures forall i, j :: 0 <= i < j < |Distinct(s)| ==>
      Distinct(s)[i] in s && Distinct(s)[j] in s &&
      FirstIndex(s, Distinct(s)[i]) < FirstIndex(s, Distinct(s)[j])
  {
    if s != [] {
      var p, last := s[..|s| - 1], s[|s| - 1];
      assert p + [last] == s;
      var d := Distinct(p);
      var r := Distinct(s);
      DistinctKeepsFirstOccurrenceOrder(p);
      forall x | x in p
        ensures FirstIndex(s, x) == FirstIndex(p, x)
      {
        FirstIndexOfPrefix(p, last, x);
      }
      forall i, j | 0 <= i < j < |r|
        ensures r[i] in s && r[j] in s && FirstIndex(s, r[i]) < FirstIndex(s, r[j])
      {
        assert r == d || r == d + [last];
        assert r[i] == d[i] && d[i] in p;
        if j < |d| {
          assert r[j] == d[j] && d[j] in p;
        } else {
          assert r[j] == last && last !in p;
          assert FirstIndex(s, last) == |s| - 1;
          assert FirstIndex(p, d[i]) < |p|;
        }
      }
    } else {
      assert |Distinct(s)| == 0;
    }
  }

  lemma {:induction false} FirstIndexOfPrefix(p: seq<string>, y: string, x: string)
    requires x in p
    ensures FirstIndex(p + [y], x) == FirstIndex(p, x)
  {
    if p[0] != x {
      assert (p + [y])[1..] == p[1..] + [y];
      FirstIndexOfPrefix(p[1..], y, x);
    }
  }

  /** Kotlin's `associateBy { it.user_id }`: every user keyed by its id, a later record with
      the same id replacing an earlier one. */
  function AssociateBy(users: seq<UserDto>): (m: map<string, UserDto>)
    ensures forall i :: 0 <= i < |users| ==> users[i].userId in m
    ensures forall k :: k in m ==> m[k] in users && m[k].userId == k
  {
    if users == [] then map[]
    else
      var p, last := users[..|users| - 1], users[|users| - 1];
      assert forall i :: 0 <= i < |p| ==> p[i] == users[i];
      assert forall u :: u in p ==> u in users;
      AssociateBy(p)[last.userId := last]
  }

  /** With several records for one id, the last one wins. */
  lemma {:induction false} AssociateByLastWins(users: seq<UserDto>, i: nat)
    requires i < |users|
    requires forall j :: i < j < |users| ==> users[j].userId != users[i].userId
    ensures AssociateBy(users)[users[i].userId] == users[i]
  {
    var p := users[..|users| - 1];
    if i < |users| - 1 {
      assert p[i] == users[i];
      AssociateByLastWins(p, i);
    }
  }

  /** `MembersDto.toMemberSummary(user)`: the member's id and join time with the user's name
      and e-mail. */
  function ToMemberSummary(m: MemberDto, u: UserDto): MemberSummary {
    MemberSummary(m.userId, u.name, u.email, m.joinedAtSeconds)
  }

  /** The `mapNotNull` of `getMembers`: a member without a user record is dropped. */
  function Join(members: seq<MemberDto>, userMap: map<string, UserDto>): (r: seq<MemberSummary>)
    ensures |r| <= |members|
    ensures forall x :: x in r ==> x.userId in userMap && x.name == userMap[x.userId].name && x.email == userMap[x.userId].email
    ensures |r| == |members| <==> forall i :: 0 <= i < |members| ==> members[i].userId in userMap
  {
    if members == [] then []
    else
      var m := members[0];
      var rest := Join(members[1..], userMap);
      assert forall i :: 1 <= i < |members| ==> members[i] == members[1..][i - 1];
      if m.userId in userMap then [ToMemberSummary(m, userMap[m.userId])] + rest else rest
  }

  /** The join works member by member: the result for a concatenation is the concatenation of
      the results, so the kept members keep their order. */
  lemma {:induction false} JoinAppend(a: seq<MemberDto>, b: seq<MemberDto>, userMap: map<string, UserDto>)
    ensures Join(a + b, userMap) == Join(a, userMap) + Join(b, userMap)
  {
    if a == [] {
      assert a + b == b;
    } else {
      assert (a + b)[0] == a[0];
      assert (a + b)[1..] == a[1..] + b;
      JoinAppend(a[1..], b, userMap);
    }
  }

  /** One member becomes its summary when its user was found, and nothing otherwise. */
  lemma JoinOne(m: MemberDto, userMap: map<string, UserDto>)
    ensures m.userId in userMap ==> Join([m], userMap) == [ToMemberSummary(m, userMap[m.userId])]
    ensures m.userId !in userMap ==> Join([m], userMap) == []
  {
  }

  /** `getMembers`: the members, then the users for the distinct member ids, then the join.
      `usersCall` says how `getUsers` answers a given id list. */
  function GetMembers(membersCall: Outcome<seq<MemberDto>>,
                      usersCall: seq<string> -> Outcome<seq<UserDto>>): (r: DataResult<seq<MemberSummary>>)
    ensures membersCall.Threw? ==> r == Error(membersCall.message)
    ensures membersCall.Returned? ==>
      var ids := Distinct(seq(|membersCall.value|, i requires 0 <= i < |membersCall.value| => membersCall.value[i].userId));
      && (r.Error? <==> usersCall(ids).Threw?)
      && (r.Error? ==> r.message == usersCall(ids).message)
      && (r.Success? ==> r.data == Join(membersCall.value, AssociateBy(usersCall(ids).value)))
  {
    match membersCall
    case Threw(m) => Error(m)
    case Returned(members) =>
      var userIds := Distinct(seq(|members|, i requires 0 <= i < |members| => members[i].userId));
      match usersCall(userIds)
      case Threw(m) => Error(m)
      case Returned(users) => Success(Join(members, AssociateBy(users)))
  }

  /** The ids `getUsers` is asked for: every member's id, each exactly once. */
  lemma RequestedIds(members: seq<MemberDto>)
    ensures var ids := Distinct(seq(|members|, i requires 0 <= i < |members| => members[i].userId));
      && NoDuplicates(ids)
      && (forall i :: 0 <= i < |members| ==> members[i].userId in ids)
      && (forall y :: y in ids ==> exists i :: 0 <= i < |members| && members[i].userId == y)
  {
    var ids := seq(|members|, i requires 0 <= i < |members| => members[i].userId);
    forall i | 0 <= i < |members|
      ensures members[i].userId in Distinct(ids)
    {
      assert ids[i] == members[i].userId;
    }
  }

  /** A successful `getMembers` pairs every summary with the user record of the same id and
      returns at most one summary per member; when the users were fetched for the requested
      ids, a member is dropped only if no record came back for it. */
  lemma GetMembersPairsUsers(members: seq<MemberDto>, users: seq<UserDto>)
    ensures var r := Join(members, AssociateBy(users));
      && |r| <= |members|
      && (forall x :: x in r ==> exists u :: u in users && u.userId == x.userId && u.name == x.name && u.email == x.email)
      && (|r| < |members| ==> exists i :: 0 <= i < |members| && forall u :: u in users ==> u.userId != members[i].userId)
  {
    var m := AssociateBy(users);
    var r := Join(members, m);
    forall x | x in r
      ensures exists u :: u in users && u.userId == x.userId && u.name == x.name && u.email == x.email
    {
      assert m[x.userId] in users;
    }
    if |r| < |members| {
      var i :| 0 <= i < |members| && members[i].userId !in m;
      forall u | u in users
        ensures u.userId != members[i].userId
      {
        var k :| 0 <= k < |users| && users[k] == u;
      }
    }
  }

  /** `getTeamspace`: the record converted by `toSummaryDomain`, or the exception's message. */
  function GetTeamspace<D, S>(call: Outcome<D>, toSummary: D -> S): (r: DataResult<S>)
    ensures r.Success? <==> call.Returned?
    ensures call.Returned? ==> r.data == toSummary(call.value)
    ensures call.Threw? ==> r.message == call.message
  {
    match call
    case Returned(dto) => Success(toSummary(dto))
    case Threw(m) => Error(m)
  }

  /** `renameTeamspace`, `deleteTeamspace`, `transferOwnership`, `kickMember`,
      `leaveTeamspace` and `warnMember`: Success(Unit) whatever the call returned, or the
      exception's message. */
  function UnitCall<T>(call: Outcome<T>): (r: DataResult<()>)
    ensures r.Success? <==> call.Returned?
    ensures call.Threw? ==> r.message == call.message
  {
    match call
    case Returned(_) => Success(())
    case Threw(m) => Error(m)
  }
}
