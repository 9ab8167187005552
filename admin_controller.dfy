/**
 * The administrator's handlers (server/src/controllers/v1/admin.controller.ts):
 * list every user, and set one user's role.
 */
module AdminController {
  import opened Prelude
  import opened ResponseHandler
  import opened ErrorMiddleware
  import opened UserService
  import opened Http

  /**
   * `getAllUsers`: every user, in creation order, with 200. The source's
   * "Users not found!" branch tests the list's truthiness, and a list is
   * always truthy, so the branch never runs.
   */
  function GetAllUsers(s: Store): (o: Outcome)
    requires Wellformed(s)
  {
    Rejected(s, Json(200, NewApiResponse(200, "Users fetched successfully!", Some(UserList(AllUsers(s))))))
  }

  method GetAllUsersHandler(svc: UserStore) returns (reply: Reply)
    requires Wellformed(svc.Snapshot())
    ensures Outcome(svc.Snapshot(), reply) == GetAllUsers(svc.Snapshot())
  {
    var users := AllUsers(svc.Snapshot());
    return Reply(Json(200, NewApiResponse(200, "Users fetched successfully!", Some(UserList(users)))), KeepCookie, None);
  }

  /** The listing answers 200, changes nothing, and lists each stored user exactly once. */
  lemma GetAllUsersListsEveryone(s: Store)
    requires Wellformed(s)
    ensures var o := GetAllUsers(s);
      && o.store == s && HttpStatus(o.reply.response) == 200
      && o.reply.response.body.statusCode == 200 && o.reply.response.body.status
      && o.reply.response.body.data.Some? && o.reply.response.body.data.value.UserList?
      && var users := o.reply.response.body.data.value.users;
         && |users| == |s.users|
         && (forall u :: u in users <==> u in s.users.Values)
         && (forall i, j :: 0 <= i < j < |users| ==> users[i].id != users[j].id)
  {
  }

  /**
   * `changeUserRole`: the user with the given id gets the given role; an
   * unknown id is refused with 404.
   */
  function ChangeUserRole(s: Store, userId: string, role: Role): (o: Outcome)
    requires Wellformed(s)
    ensures SameAccounts(s, o.store)
  {
    match GetUserByProperty(s, IdProperty, userId)
    case None => Rejected(s, Fail(404, "User not found!"))
    case Some(_) =>
      match Update(s, userId, Patch(role := Some(role)))
      case None => Rejected(s, UPDATE_NOT_FOUND)
      case Some(s1) => Outcome(s1, Reply(Json(200, NewApiResponse<ResponseData>(200, "User role updated successfully!")), KeepCookie, None))
  }

  method ChangeUserRoleHandler(svc: UserStore, userId: string, role: Role) returns (reply: Reply)
    requires Wellformed(svc.Snapshot())
    modifies svc
    ensures Outcome(svc.Snapshot(), reply) == ChangeUserRole(old(svc.Snapshot()), userId, role)
  {
    var user := GetUserByProperty(svc.Snapshot(), IdProperty, userId);
    if user.None? {
      return Reply(Fail(404, "User not found!"), KeepCookie, None);
    }
    var updated := svc.UpdateUser(userId, Patch(role := Some(role)));
    if updated.None? {
      return Reply(UPDATE_NOT_FOUND, KeepCookie, None);
    }
    return Reply(Json(200, NewApiResponse<ResponseData>(200, "User role updated successfully!")), KeepCookie, None);
  }

  /**
   * A role change for an unknown id changes nothing and answers 404; for a
   * known id it changes that user's role and nothing else, answers 200 and
   * keeps the invariant.
   */
  lemma ChangeUserRoleOutcome(s: Store, userId: string, role: Role)
    requires Inv(s)
    ensures var o := ChangeUserRole(s, userId, role);
      && Inv(o.store)
      && (userId !in s.users ==> o == Rejected(s, Fail(404, "User not found!")))
      && (userId in s.users ==>
            && HttpStatus(o.reply.response) == 200
            && o.store == Store(s.users[userId := s.users[userId].(role := role)], s.order))
  {
    UpdateKeepsInv(s, userId, Patch(role := Some(role)));
  }

  /** Setting the same role twice is setting it once. */
  lemma ChangeUserRoleIdempotent(s: Store, userId: string, role: Role)
    requires Wellformed(s)
    ensures var once := ChangeUserRole(s, userId, role);
      Wellformed(once.store) && ChangeUserRole(once.store, userId, role).store == once.store
  {
    var p := Patch(role := Some(role));
    if userId in s.users {
      var s1 := Update(s, userId, p).value;
      assert ChangeUserRole(s, userId, role).store == s1;
      forall id | id in s1.users ensures s1.users[id].id == id {
        if id != userId { assert s1.users[id] == s.users[id]; }
      }
      assert Wellformed(s1);
      var v := s1.users[userId];
      assert Apply(v, p) == v;
      assert Update(s1, userId, p).value.users == s1.users;
    }
  }
}
