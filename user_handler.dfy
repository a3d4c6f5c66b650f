/** The user HTTP handlers (backend/modules/user/handlers/user_handler.go):
    the list parameters of ReadAllUsers and the rule of DeleteUser. Outcomes
    are status codes. */
module UserHandler {
  import opened Common
  import opened Strconv
  import opened UserModels
  import ItemModels
  import BlogModels
  import CalendarModels
  import opened Database
  import opened UserRepository
  import opened UserService
  import opened RequestUser

  /** `limit`: DefaultQuery "100"; a non-number or a negative number reads as 100. */
  function LimitParam(param: Option<string>): (r: int)
    ensures r >= 0
  {
    var n := Atoi(ValueOr(param, "100"));
    if n.None? || n.value < 0 then 100 else n.value
  }

  /** `skip`: DefaultQuery "0"; a non-number or a negative number reads as 0. */
  function SkipParam(param: Option<string>): (r: int)
    ensures r >= 0
  {
    var n := Atoi(ValueOr(param, "0"));
    if n.None? || n.value < 0 then 0 else n.value
  }

  /** A written non-negative number is taken as it is -- a limit of 0
      included; a missing or negative one falls back to the default. */
  lemma ListParamsReadBack(n: int)
    ensures n >= 0 ==> LimitParam(Some(Itoa(n))) == n && SkipParam(Some(Itoa(n))) == n
    ensures n < 0 ==> LimitParam(Some(Itoa(n))) == 100 && SkipParam(Some(Itoa(n))) == 0
    ensures LimitParam(None) == 100 && SkipParam(None) == 0
  {
    AtoiInvertsItoa(n);
    AtoiInvertsItoa(100);
    AtoiInvertsItoa(0);
    assert Itoa(100) == "100" && Itoa(0) == "0";
  }

  /** Text that is not a number falls back to the defaults. */
  lemma NonNumericParams(s: string)
    requires Atoi(s).None?
    ensures LimitParam(Some(s)) == 100 && SkipParam(Some(s)) == 0
  {
  }

  /** ReadAllUsers: the page of users for the normalised parameters, without
      passwords; `count` is the size of that page. TransformUsers builds its
      result by appending to a nil slice, so an empty page is sent as
      `"data": null` (`None`), not as an empty array. */
  method ReadAllUsers(db: Db, limitParam: Option<string>, skipParam: Option<string>)
    returns (status: int, data: Option<seq<UserResponse>>, count: int)
    ensures var page := GetAllUsers(db.users, LimitParam(limitParam), SkipParam(skipParam));
      && status == StatusOK && count == |page| && count <= LimitParam(limitParam)
      && (data.None? <==> page == [])
      && (data.Some? ==> |data.value| == |page|
                         && forall i :: 0 <= i < |page| ==> data.value[i] == ToResponse(page[i]))
  {
    var limit := LimitParam(limitParam);
    var skip := SkipParam(skipParam);
    var users := GetAllUsers(db.users, limit, skip);
    var responses := TransformUsers(users);
    data := AppendedSliceJson(responses);
    count := |responses|;
    status := StatusOK;
  }

  /** The status of DeleteUser, decided before anything is deleted. */
  function DeleteUserStatus(users: seq<User>, authId: Option<Uuid>, target: PathId): (status: int)
    ensures authId.None? ==> status == StatusUnauthorized
    ensures authId.Some? && !target.ValidId? ==> status == StatusBadRequest
    ensures status == StatusOK <==>
              && authId.Some? && target.ValidId?
              && IsSuperUserOf(users, authId.value).Ok? && IsSuperUserOf(users, target.id).Ok?
              && var requesterSuper := IsSuperUserOf(users, authId.value).value;
                 var targetSuper := IsSuperUserOf(users, target.id).value;
                 (requesterSuper && !targetSuper) || (!requesterSuper && target.id == authId.value)
  {
    if authId.None? then StatusUnauthorized
    else if !target.ValidId? then StatusBadRequest
    else
      var isSuperUser := IsSuperUserOf(users, authId.value);
      if isSuperUser.Err? then StatusInternalServerError
      else
        var isTargetSuperUser := IsSuperUserOf(users, target.id);
        if isTargetSuperUser.Err? then StatusInternalServerError
        else if isTargetSuperUser.value && isSuperUser.value then StatusForbidden
        else if !isSuperUser.value && target.id != authId.value then StatusForbidden
        else StatusOK
  }

  /** DeleteUser: decide, then delete the target -- and, by the cascade,
      everything they own -- when allowed. */
  method DeleteUser(db: Db, authId: Option<Uuid>, target: PathId) returns (status: int)
    modifies db`users, db`items, db`blogs, db`events
    ensures status == DeleteUserStatus(old(db.users), authId, target)
    ensures status == StatusOK ==>
              && db.users == Filter(old(db.users), (u: User) => u.id != target.id)
              && db.items == Filter(old(db.items), (i: ItemModels.Item) => i.data.ownerId != target.id)
              && db.blogs == Filter(old(db.blogs), (b: BlogModels.Blog) => b.data.ownerId != target.id)
              && db.events == Filter(old(db.events), (e: CalendarModels.Event) => e.userId != target.id)
    ensures status != StatusOK ==>
              db.users == old(db.users) && db.items == old(db.items)
              && db.blogs == old(db.blogs) && db.events == old(db.events)
  {
    status := DeleteUserStatus(db.users, authId, target);
    if status == StatusOK {
      var err := DeleteUserById(db, target.id);
      assert err == None;
    }
  }

  /** A superuser can never be deleted by a superuser, not even by itself. */
  lemma SuperUserNeverDeletesSuperUser(users: seq<User>, requester: User, victim: User)
    requires requester in users && victim in users
    requires requester.isSuperUser && victim.isSuperUser
    requires FindUser(users, requester.id) == Some(requester) && FindUser(users, victim.id) == Some(victim)
    ensures DeleteUserStatus(users, Some(requester.id), ValidId(victim.id)) == StatusForbidden
  {
  }

  /** A user who is not a superuser may delete exactly their own account. */
  lemma OrdinaryUserDeletesOnlySelf(users: seq<User>, requester: User, target: Uuid)
    requires FindUser(users, requester.id) == Some(requester) && !requester.isSuperUser
    requires IsSuperUserOf(users, target).Ok?
    ensures DeleteUserStatus(users, Some(requester.id), ValidId(target)) == StatusOK <==> target == requester.id
  {
  }

  /** A malformed target id is refused with 400 before any role lookup, so
      the outcome does not depend on the users table. */
  lemma MalformedIdIgnoresTable(users: seq<User>, others: seq<User>, authId: Uuid, target: PathId)
    requires !target.ValidId?
    ensures DeleteUserStatus(users, Some(authId), target) == DeleteUserStatus(others, Some(authId), target) == StatusBadRequest
  {
  }
}
