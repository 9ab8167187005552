/**
 * The user store and its service (server/src/services/v1/user.services.ts).
 * The database is a map from id to user record plus the order in which the
 * records were created, so that "the first record that matches" is
 * well defined; the queries are functions over that value, and the updates
 * are methods of `UserStore`, each tied to the function that computes its
 * new state.
 */
module UserService {
  import opened Prelude
  import Helpers

  type Id = string

  datatype Role = Basic | Admin

  /** The role as it is written in claims and request bodies. */
  function RoleName(r: Role): (name: string)
    ensures name == "basic" || name == "admin"
  {
    match r
    case Basic => "basic"
    case Admin => "admin"
  }

  /** The role a name denotes, if any. */
  function ParseRole(name: string): (r: Option<Role>)
    ensures r.Some? <==> name == "basic" || name == "admin"
  {
    if name == "basic" then Some(Basic) else if name == "admin" then Some(Admin) else None
  }

  lemma RoleNameRoundTrip(r: Role)
    ensures ParseRole(RoleName(r)) == Some(r)
  {
  }

  /** The profile record created with every user. */
  datatype Profile = Profile(firstName: string, lastName: string, avatar: Option<string>)

  /**
   * A user record. `password` holds the bcrypt hash; the one-time token
   * fields hold SHA-256 digests; expiries are milliseconds since the epoch.
   * `None` is the database's null.
   */
  datatype User = User(
    id: Id,
    username: string,
    email: string,
    password: string,
    role: Role,
    loginType: string,
    isEmailVerified: bool,
    profile: Option<Profile>,
    refreshToken: Option<string>,
    emailVerificationToken: Option<string>,
    emailVerificationExpiry: Option<nat>,
    resetPasswordToken: Option<string>,
    resetPasswordExpiry: Option<nat>)

  /** The users and the order in which they were created. */
  datatype Store = Store(users: map<Id, User>, order: seq<Id>)

  // ---- invariants ----

  /** Every record sits under its own id, and `order` lists each id once. */
  predicate Wellformed(s: Store) {
    && (forall id :: id in s.users ==> s.users[id].id == id)
    && (forall i, j :: 0 <= i < j < |s.order| ==> s.order[i] != s.order[j])
    && (forall i :: 0 <= i < |s.order| ==> s.order[i] in s.users)
    && (forall id :: id in s.users ==> id in s.order)
  }

  /** The database's unique constraints on `username` and `email`. */
  predicate UniqueKeys(s: Store) {
    forall a, b :: a in s.users && b in s.users && a != b ==>
      s.users[a].username != s.users[b].username && s.users[a].email != s.users[b].email
  }

  /** A one-time token and its expiry are set together and cleared together. */
  predicate PairsTogether(u: User) {
    && (u.emailVerificationToken.Some? <==> u.emailVerificationExpiry.Some?)
    && (u.resetPasswordToken.Some? <==> u.resetPasswordExpiry.Some?)
  }

  predicate Inv(s: Store) {
    Wellformed(s) && UniqueKeys(s) && forall id :: id in s.users ==> PairsTogether(s.users[id])
  }

  // ---- queries ----

  /** The `where` clauses the service passes to `findFirst`/`findUnique`. */
  datatype Query =
    | UsernameIs(username: string)
    | EmailIs(email: string)
    | IdIs(id: Id)
    | RefreshTokenIs(token: string)
    | UsernameOrEmail(username: string, email: string)
    | LiveEmailToken(digest: string, now: nat)
    | LiveResetToken(digest: string, now: nat)

  predicate Matches(u: User, q: Query) {
    match q
    case UsernameIs(n) => u.username == n
    case EmailIs(e) => u.email == e
    case IdIs(id) => u.id == id
    case RefreshTokenIs(t) => u.refreshToken == Some(t)
    case UsernameOrEmail(n, e) => u.username == n || u.email == e
    case LiveEmailToken(h, now) =>
      u.emailVerificationToken == Some(h) && u.emailVerificationExpiry.Some? && u.emailVerificationExpiry.value >= now
    case LiveResetToken(h, now) =>
      u.resetPasswordToken == Some(h) && u.resetPasswordExpiry.Some? && u.resetPasswordExpiry.value >= now
  }

  /** The first record, in the order of `ids`, that matches. */
  function FindIn(users: map<Id, User>, ids: seq<Id>, q: Query): (r: Option<User>)
    ensures r.Some? ==> Matches(r.value, q) && r.value in users.Values
    ensures r.None? <==> forall i :: 0 <= i < |ids| && ids[i] in users ==> !Matches(users[ids[i]], q)
    decreases |ids|
  {
    if |ids| == 0 then None
    else if ids[0] in users && Matches(users[ids[0]], q) then Some(users[ids[0]])
    else FindIn(users, ids[1..], q)
  }

  /** `findFirst({ where })`: the first matching record in creation order. */
  function Find(s: Store, q: Query): (r: Option<User>)
    requires Wellformed(s)
    ensures r.Some? ==> Matches(r.value, q) && r.value in s.users.Values
    ensures r.None? <==> forall u :: u in s.users.Values ==> !Matches(u, q)
  {
    NoMatchAnywhere(s, q);
    FindIn(s.users, s.order, q)
  }

  /** Since `order` lists every id, no match along `order` means no match at all. */
  lemma NoMatchAnywhere(s: Store, q: Query)
    requires Wellformed(s)
    ensures (forall i :: 0 <= i < |s.order| && s.order[i] in s.users ==> !Matches(s.users[s.order[i]], q))
            ==> forall u :: u in s.users.Values ==> !Matches(u, q)
  {
    if forall i :: 0 <= i < |s.order| && s.order[i] in s.users ==> !Matches(s.users[s.order[i]], q) {
      forall u | u in s.users.Values ensures !Matches(u, q) {
        var id :| id in s.users && s.users[id] == u;
        var i :| 0 <= i < |s.order| && s.order[i] == id;
      }
    }
  }

  /** A query that at most one record can match finds that record. */
  lemma FindTheOnly(s: Store, q: Query, u: User)
    requires Wellformed(s) && u in s.users.Values && Matches(u, q)
    requires forall v :: v in s.users.Values && Matches(v, q) ==> v == u
    ensures Find(s, q) == Some(u)
  {
  }

  /** Under the unique constraints a username, an email or an id names at most one record. */
  lemma UniqueLookup(s: Store, u: User, q: Query)
    requires Inv(s) && u in s.users.Values && Matches(u, q)
    requires q.UsernameIs? || q.EmailIs? || q.IdIs?
    ensures Find(s, q) == Some(u)
  {
    forall v | v in s.users.Values && Matches(v, q) ensures v == u {
      var a :| a in s.users && s.users[a] == u;
      var b :| b in s.users && s.users[b] == v;
    }
    FindTheOnly(s, q, u);
  }

  /** `findExistingUser(username, email)`: some user has the username or the email. */
  function FindExistingUser(s: Store, username: string, email: string): (r: Option<User>)
    requires Wellformed(s)
    ensures r.Some? <==> exists u :: u in s.users.Values && (u.username == username || u.email == email)
    ensures r.Some? ==> r.value in s.users.Values && (r.value.username == username || r.value.email == email)
  {
    Find(s, UsernameOrEmail(username, email))
  }

  /** `getUserByUsername(username)` */
  function GetUserByUsername(s: Store, username: string): (r: Option<User>)
    requires Wellformed(s)
    ensures r.Some? <==> exists u :: u in s.users.Values && u.username == username
    ensures r.Some? ==> r.value in s.users.Values && r.value.username == username
  {
    Find(s, UsernameIs(username))
  }

  /** `getUserByEmail(email)` */
  function GetUserByEmail(s: Store, email: string): (r: Option<User>)
    requires Wellformed(s)
    ensures r.Some? <==> exists u :: u in s.users.Values && u.email == email
    ensures r.Some? ==> r.value in s.users.Values && r.value.email == email
  {
    Find(s, EmailIs(email))
  }

  /** `getUserById(id)` */
  function GetUserById(s: Store, id: Id): (r: Option<User>)
    requires Wellformed(s)
    ensures r.Some? <==> id in s.users
    ensures r.Some? ==> r.value == s.users[id]
  {
    Find(s, IdIs(id))
  }

  /** `getRefreshToken(token)`: a user whose stored refresh token is `token`. */
  function GetRefreshToken(s: Store, token: string): (r: Option<User>)
    requires Wellformed(s)
    ensures r.Some? <==> exists u :: u in s.users.Values && u.refreshToken == Some(token)
    ensures r.Some? ==> r.value in s.users.Values && r.value.refreshToken == Some(token)
  {
    Find(s, RefreshTokenIs(token))
  }

  /**
   * `verifyEmail(digest)`: a user holding the digest whose expiry is not
   * before `now`; an expiry equal to `now` still counts.
   */
  function VerifyEmailToken(s: Store, digest: string, now: nat): (r: Option<User>)
    requires Wellformed(s)
    ensures r.Some? <==> exists u :: u in s.users.Values && u.emailVerificationToken == Some(digest) &&
                           u.emailVerificationExpiry.Some? && u.emailVerificationExpiry.value >= now
    ensures r.Some? ==> r.value in s.users.Values && r.value.emailVerificationToken == Some(digest) &&
                        r.value.emailVerificationExpiry.Some? && r.value.emailVerificationExpiry.value >= now
  {
    Find(s, LiveEmailToken(digest, now))
  }

  /** `verifyPasswordResetToken(digest)`: the same rule on the reset pair. */
  function VerifyPasswordResetToken(s: Store, digest: string, now: nat): (r: Option<User>)
    requires Wellformed(s)
    ensures r.Some? <==> exists u :: u in s.users.Values && u.resetPasswordToken == Some(digest) &&
                           u.resetPasswordExpiry.Some? && u.resetPasswordExpiry.value >= now
    ensures r.Some? ==> r.value in s.users.Values && r.value.resetPasswordToken == Some(digest) &&
                        r.value.resetPasswordExpiry.Some? && r.value.resetPasswordExpiry.value >= now
  {
    Find(s, LiveResetToken(digest, now))
  }

  /** The fields the controllers look users up by. */
  datatype Property = UsernameProperty | RefreshTokenProperty | IdProperty

  /** `getUserByProperty(field, value)`: an exact match on the named field. */
  function GetUserByProperty(s: Store, field: Property, value: string): (r: Option<User>)
    requires Wellformed(s)
    ensures field == UsernameProperty ==> r == GetUserByUsername(s, value)
    ensures field == RefreshTokenProperty ==> r == GetRefreshToken(s, value)
    ensures field == IdProperty ==> r == GetUserById(s, value)
  {
    match field
    case UsernameProperty => Find(s, UsernameIs(value))
    case RefreshTokenProperty => Find(s, RefreshTokenIs(value))
    case IdProperty => Find(s, IdIs(value))
  }

  /** `getUsers()`: every user, in creation order. */
  function AllUsers(s: Store): (r: seq<User>)
    requires Wellformed(s)
    ensures |r| == |s.order| == |s.users|
    ensures forall i :: 0 <= i < |r| ==> r[i] == s.users[s.order[i]]
    ensures forall u :: u in s.users.Values <==> u in r
  {
    DistinctIdsCount(s);
    var r := seq(|s.order|, i requires 0 <= i < |s.order| => s.users[s.order[i]]);
    forall u | u in s.users.Values ensures u in r {
      var id :| id in s.users && s.users[id] == u;
      var i :| 0 <= i < |s.order| && s.order[i] == id;
      assert r[i] == u;
    }
    r
  }

  lemma DistinctIdsCount(s: Store)
    requires Wellformed(s)
    ensures |s.order| == |s.users|
  {
    var ids := set i | 0 <= i < |s.order| :: s.order[i];
    assert ids == s.users.Keys;
    DistinctSeqSetSize(s.order);
  }

  lemma {:induction false} DistinctSeqSetSize(xs: seq<Id>)
    requires forall i, j :: 0 <= i < j < |xs| ==> xs[i] != xs[j]
    ensures |set i | 0 <= i < |xs| :: xs[i]| == |xs|
  {
    if |xs| > 0 {
      DistinctSeqSetSize(xs[1..]);
      var tail := set i | 0 <= i < |xs[1..]| :: xs[1..][i];
      var all := set i | 0 <= i < |xs| :: xs[i];
      assert all == {xs[0]} + tail by {
        forall x | x in all ensures x in {xs[0]} + tail {
          var i :| 0 <= i < |xs| && xs[i] == x;
          if i > 0 { assert xs[1..][i - 1] == x; }
        }
      }
      assert xs[0] !in tail;
    }
  }

  // ---- updates ----

  /**
   * The `data` of `update`: each field that is `Some` is written; a nullable
   * field is written with `Some(None)` to set it to null.
   */
  datatype Patch = Patch(
    password: Option<string> := None,
    role: Option<Role> := None,
    isEmailVerified: Option<bool> := None,
    refreshToken: Option<Option<string>> := None,
    emailVerificationToken: Option<Option<string>> := None,
    emailVerificationExpiry: Option<Option<nat>> := None,
    resetPasswordToken: Option<Option<string>> := None,
    resetPasswordExpiry: Option<Option<nat>> := None)

  function Pick<T>(given: Option<T>, current: T): T {
    if given.Some? then given.value else current
  }

  /** The record after a patch: the given fields take the patch's values, the rest keep theirs. */
  function Apply(u: User, p: Patch): (v: User)
    ensures v.id == u.id && v.username == u.username && v.email == u.email
    ensures v.loginType == u.loginType && v.profile == u.profile
  {
    u.(password := Pick(p.password, u.password),
       role := Pick(p.role, u.role),
       isEmailVerified := Pick(p.isEmailVerified, u.isEmailVerified),
       refreshToken := Pick(p.refreshToken, u.refreshToken),
       emailVerificationToken := Pick(p.emailVerificationToken, u.emailVerificationToken),
       emailVerificationExpiry := Pick(p.emailVerificationExpiry, u.emailVerificationExpiry),
       resetPasswordToken := Pick(p.resetPasswordToken, u.resetPasswordToken),
       resetPasswordExpiry := Pick(p.resetPasswordExpiry, u.resetPasswordExpiry))
  }

  /** An empty patch changes nothing. */
  lemma ApplyEmpty(u: User)
    ensures Apply(u, Patch()) == u
  {
  }

  /** A patch sets or clears each one-time token together with its expiry, or leaves both alone. */
  predicate KeepsPairs(p: Patch) {
    && (p.emailVerificationToken.Some? <==> p.emailVerificationExpiry.Some?)
    && (p.emailVerificationToken.Some? ==>
          (p.emailVerificationToken.value.Some? <==> p.emailVerificationExpiry.value.Some?))
    && (p.resetPasswordToken.Some? <==> p.resetPasswordExpiry.Some?)
    && (p.resetPasswordToken.Some? ==>
          (p.resetPasswordToken.value.Some? <==> p.resetPasswordExpiry.value.Some?))
  }

  lemma ApplyKeepsPairs(u: User, p: Patch)
    requires PairsTogether(u) && KeepsPairs(p)
    ensures PairsTogether(Apply(u, p))
  {
  }

  /** No account was created or removed, and the creation order is the same. */
  predicate SameAccounts(s: Store, t: Store) {
    t.users.Keys == s.users.Keys && t.order == s.order
  }

  /**
   * `update({ where: { id }, data })`: `None` when no record has the id (the
   * database raises a not-found error); otherwise only that record changes.
   */
  function Update(s: Store, id: Id, p: Patch): (r: Option<Store>)
    ensures r.Some? <==> id in s.users
    ensures r.Some? ==> SameAccounts(s, r.value)
    ensures r.Some? ==> r.value.users[id] == Apply(s.users[id], p)
    ensures r.Some? ==> forall other :: other in s.users && other != id ==> r.value.users[other] == s.users[other]
  {
    if id in s.users then Some(Store(s.users[id := Apply(s.users[id], p)], s.order)) else None
  }

  /** A stored record sits under its own id. */
  lemma StoredUnderId(s: Store, u: User)
    requires Wellformed(s) && u in s.users.Values
    ensures u.id in s.users && s.users[u.id] == u
  {
    var k :| k in s.users && s.users[k] == u;
  }

  /** An update keeps every record's id, username and email, hence the store's shape. */
  lemma UpdateKeepsKeys(s: Store, id: Id, p: Patch)
    requires Wellformed(s) && id in s.users
    ensures var t := Update(s, id, p).value;
      && Wellformed(t)
      && forall k :: k in t.users ==>
           t.users[k].id == s.users[k].id && t.users[k].username == s.users[k].username &&
           t.users[k].email == s.users[k].email
  {
  }

  /** An update that keeps token pairs together keeps the store's invariant. */
  lemma UpdateKeepsInv(s: Store, id: Id, p: Patch)
    requires Inv(s) && KeepsPairs(p)
    ensures Update(s, id, p).Some? ==> Inv(Update(s, id, p).value)
  {
    if id in s.users {
      UpdateKeepsKeys(s, id, p);
      ApplyKeepsPairs(s.users[id], p);
    }
  }

  /**
   * When no other record matches a query and the update makes this record
   * match, the lookup afterwards finds exactly the updated record.
   */
  lemma UpdateSoleMatch(s: Store, id: Id, p: Patch, q: Query)
    requires Wellformed(s) && id in s.users
    requires forall v :: v in s.users.Values && Matches(v, q) ==> v.id == id
    requires Matches(Apply(s.users[id], p), q)
    ensures Wellformed(Update(s, id, p).value) && Find(Update(s, id, p).value, q) == Some(Apply(s.users[id], p))
  {
    UpdateKeepsKeys(s, id, p);
    var t := Update(s, id, p).value;
    forall v | v in t.users.Values && Matches(v, q) ensures v == t.users[id] {
      var k :| k in t.users && t.users[k] == v;
    }
    FindTheOnly(t, q, t.users[id]);
  }

  /**
   * When only the updated record matched a query and the update makes it
   * stop matching, nothing matches afterwards.
   */
  lemma UpdateReleases(s: Store, id: Id, p: Patch, q: Query)
    requires Wellformed(s) && id in s.users
    requires forall v :: v in s.users.Values && Matches(v, q) ==> v.id == id
    requires !Matches(Apply(s.users[id], p), q)
    ensures Wellformed(Update(s, id, p).value) && Find(Update(s, id, p).value, q).None?
  {
    UpdateKeepsKeys(s, id, p);
    var t := Update(s, id, p).value;
    forall v | v in t.users.Values ensures !Matches(v, q) {
      var k :| k in t.users && t.users[k] == v;
      if k != id {
        assert s.users[k] in s.users.Values;
      }
    }
  }

  /**
   * `userSignUp(...)`: hashes the password (bcrypt with a fresh salt) and
   * creates the user with its profile, login type "email", role "basic"
   * unless given. `None` when the username or email is already taken (the
   * unique constraints reject the insert). `newId` is the id the database
   * assigns, fresh by requirement.
   */
  function SignUp(s: Store, prim: Helpers.Primitives, salt: string, newId: Id,
                  firstName: string, lastName: string, username: string, email: string,
                  password: string, role: Role := Basic): (r: Option<Store>)
    requires newId !in s.users
    ensures r.Some? <==> forall u :: u in s.users.Values ==> u.username != username && u.email != email
    ensures r.Some? ==> r.value.order == s.order + [newId]
    ensures r.Some? ==> r.value.users == s.users[newId := NewUser(prim, salt, newId, firstName, lastName, username, email, password, role)]
  {
    if exists u :: u in s.users.Values && (u.username == username || u.email == email) then None
    else Some(Store(s.users[newId := NewUser(prim, salt, newId, firstName, lastName, username, email, password, role)],
                    s.order + [newId]))
  }

  /** The record `signUp` creates: nothing verified, no tokens. */
  function NewUser(prim: Helpers.Primitives, salt: string, id: Id, firstName: string, lastName: string,
                   username: string, email: string, password: string, role: Role): (u: User)
    ensures u.id == id && u.username == username && u.email == email && u.role == role
    ensures u.password == prim.bcryptHash(password, salt) && !u.isEmailVerified
    ensures u.profile == Some(Profile(firstName, lastName, None))
    ensures u.refreshToken.None? && u.emailVerificationToken.None? && u.resetPasswordToken.None?
    ensures PairsTogether(u)
  {
    User(id, username, email, prim.bcryptHash(password, salt), role, "email", false,
         Some(Profile(firstName, lastName, None)), None, None, None, None, None)
  }

  /**
   * Appending a record under a fresh id keeps the invariant when the record
   * keeps its token pairs together and takes no username or email in use.
   */
  lemma InsertKeepsInv(s: Store, u: User)
    requires Inv(s) && u.id !in s.users && PairsTogether(u)
    requires forall v :: v in s.users.Values ==> v.username != u.username && v.email != u.email
    ensures Inv(Store(s.users[u.id := u], s.order + [u.id]))
  {
    var t := Store(s.users[u.id := u], s.order + [u.id]);
    forall a, b | a in t.users && b in t.users && a != b
      ensures t.users[a].username != t.users[b].username && t.users[a].email != t.users[b].email
    {
      if a == u.id {
        assert s.users[b] in s.users.Values;
      } else if b == u.id {
        assert s.users[a] in s.users.Values;
      }
    }
    assert u.id !in s.order;
    forall i, j | 0 <= i < j < |t.order| ensures t.order[i] != t.order[j] {
      if j == |s.order| { assert t.order[i] == s.order[i]; }
    }
  }

  /** Signing up keeps the invariant, and the role defaults to basic. */
  lemma SignUpKeepsInv(s: Store, prim: Helpers.Primitives, salt: string, newId: Id,
                       firstName: string, lastName: string, username: string, email: string, password: string)
    requires Inv(s) && newId !in s.users
    ensures var r := SignUp(s, prim, salt, newId, firstName, lastName, username, email, password);
      r.Some? ==> Inv(r.value) && r.value.users[newId].role == Basic
  {
    if SignUp(s, prim, salt, newId, firstName, lastName, username, email, password).Some? {
      InsertKeepsInv(s, NewUser(prim, salt, newId, firstName, lastName, username, email, password, Basic));
    }
  }

  // ---- the service object ----

  /** The service over the database; the two fields are the table and its creation order. */
  class UserStore {
    var users: map<Id, User>
    var order: seq<Id>

    function Snapshot(): Store
      reads this
    {
      Store(users, order)
    }

    /** An empty database. */
    constructor()
      ensures Snapshot() == Store(map[], [])
      ensures Inv(Snapshot())
    {
      users := map[];
      order := [];
    }

    /** `updateUser(userId, data)`: the updated record, or `None` where the database raises not-found. */
    method UpdateUser(userId: Id, data: Patch) returns (result: Option<User>)
      modifies this
      ensures result.Some? <==> userId in old(users)
      ensures result.Some? ==> Update(old(Snapshot()), userId, data) == Some(Snapshot())
      ensures result.Some? ==> result.value == users[userId]
      ensures result.None? ==> Snapshot() == old(Snapshot())
    {
      if userId !in users {
        return None;
      }
      var updated := Apply(users[userId], data);
      users := users[userId := updated];
      return Some(updated);
    }

    /** `saveRefreshToken(userId, token)` */
    method SaveRefreshToken(userId: Id, refreshToken: string) returns (result: Option<User>)
      modifies this
      ensures result.Some? <==> userId in old(users)
      ensures result.Some? ==> Update(old(Snapshot()), userId, Patch(refreshToken := Some(Some(refreshToken)))) == Some(Snapshot())
      ensures result.Some? ==> users[userId].refreshToken == Some(refreshToken)
      ensures result.None? ==> Snapshot() == old(Snapshot())
    {
      result := UpdateUser(userId, Patch(refreshToken := Some(Some(refreshToken))));
    }

    /** `deleteRefreshToken(userId, token)`: clears the stored token whatever `refreshToken` says. */
    method DeleteRefreshToken(userId: Id, refreshToken: string) returns (result: Option<User>)
      modifies this
      ensures result.Some? <==> userId in old(users)
      ensures result.Some? ==> Update(old(Snapshot()), userId, Patch(refreshToken := Some(None))) == Some(Snapshot())
      ensures result.Some? ==> users[userId].refreshToken.None?
      ensures result.None? ==> Snapshot() == old(Snapshot())
    {
      result := UpdateUser(userId, Patch(refreshToken := Some(None)));
    }

    /** `userSignUp(...)`, the role defaulting to basic. */
    method UserSignUp(prim: Helpers.Primitives, salt: string, newId: Id, firstName: string, lastName: string,
                      username: string, email: string, password: string, role: Role := Basic)
      returns (created: Option<User>)
      requires newId !in users
      modifies this
      ensures SignUp(old(Snapshot()), prim, salt, newId, firstName, lastName, username, email, password, role)
              == (if created.Some? then Some(Snapshot()) else None)
      ensures created.None? ==> Snapshot() == old(Snapshot())
      ensures created.Some? ==> created.value == users[newId] && created.value.role == role
    {
      if exists u :: u in users.Values && (u.username == username || u.email == email) {
        return None;
      }
      var u := NewUser(prim, salt, newId, firstName, lastName, username, email, password, role);
      users := users[newId := u];
      order := order + [newId];
      return Some(u);
    }
  }
}
