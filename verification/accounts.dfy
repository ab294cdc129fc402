/** User accounts: registration with e-mail uniqueness, profile editing with the
    Bulgarian phone prefix, the role toggle and the bootstrap administrator. */
module Accounts {
  import opened Sequences
  import opened Domain
  import opened Store

  const PhonePrefix: string := "+359"
  const AdminEmail: string := "onlinefootballstoreofficial@gmail.com"
  const AdminPassword: string := "footballstore123"
  const AdminName: string := "ADMIN"
  const WelcomeSubject: string := "Sending email for registering"
  const WelcomeBody: string := "Welcome to our community. Shop easily top-quality products."

  /** The stored form of an edited phone number: the country prefix in front of
      a non-empty number, and null for an empty one. */
  function NormalizePhone(phone: string): (r: Option<string>)
    ensures r.None? <==> phone == []
    ensures r.Some? ==> (&& |r.value| == |PhonePrefix| + |phone|
                         && r.value[..|PhonePrefix|] == PhonePrefix
                         && r.value[|PhonePrefix|..] == phone)
  {
    if phone == [] then None else Some(PhonePrefix + phone)
  }

  /** `editUserInfo` on one row, for a form whose phone is not null: names
      copied, phone normalised, the rest kept. */
  function EditFields(u: User, req: UserEditRequest): (v: User)
    requires req.phoneNumber.Some?
    ensures v.id == u.id && v.email == u.email && v.password == u.password
    ensures v.role == u.role && v.createdOn == u.createdOn
    ensures v.firstName == req.firstName && v.lastName == req.lastName
  {
    u.(firstName := req.firstName, lastName := req.lastName,
       phoneNumber := NormalizePhone(req.phoneNumber.value))
  }

  /** USER becomes ADMIN and every other role becomes USER: with two roles,
      always the other one. */
  function ToggleRole(role: Role): (t: Role)
    ensures t != role
  {
    if role == USER then ADMIN else USER
  }

  /** Changing the role twice restores it. */
  lemma ToggleRoleTwice(role: Role)
    ensures ToggleRole(ToggleRole(role)) == role
  {
  }

  /** The account `registerUser` saves: role USER, no names, no phone. */
  function NewUser(id: Id, req: RegisterRequest, now: Time, encode: string -> string): User
  {
    User(id, None, None, None, req.email, encode(req.password), USER, now)
  }

  function AdminUser(id: Id, now: Time, encode: string -> string): User
  {
    User(id, Some(AdminName), Some(AdminName), None, AdminEmail, encode(AdminPassword), ADMIN, now)
  }

  function WelcomeEmail(recipient: string): Email
  {
    Email(recipient, WelcomeSubject, WelcomeBody)
  }

  /** `findByEmail`: the row with that e-mail, or -1. */
  function EmailRow(users: seq<User>, email: string): (i: int)
    ensures -1 <= i < |users|
    ensures i == -1 <==> email !in Emails(users)
    ensures 0 <= i ==> users[i].email == email
  {
    IndexWhere(users, (u: User) => u.email == email)
  }

  /** How many accounts carry the e-mail `email`. */
  function CountEmail(users: seq<User>, email: string): nat
  {
    if users == [] then 0
    else (if users[0].email == email then 1 else 0) + CountEmail(users[1..], email)
  }

  lemma {:induction false} CountEmailAbsent(users: seq<User>, email: string)
    requires email !in Emails(users)
    ensures CountEmail(users, email) == 0
  {
    if users != [] {
      assert users[0] in users;
      assert Emails(users[1..]) <= Emails(users) by {
        forall e | e in Emails(users[1..]) ensures e in Emails(users) {
          var u :| u in users[1..] && u.email == e;
          assert u in users;
        }
      }
      CountEmailAbsent(users[1..], email);
    }
  }

  /** Under the unique-e-mail rule, an e-mail in use is carried by exactly one account. */
  lemma {:induction false} CountEmailUnique(users: seq<User>, email: string)
    requires UniqueEmails(users) && email in Emails(users)
    ensures CountEmail(users, email) == 1
  {
    var rest := users[1..];
    assert Emails(users) == {users[0].email} + Emails(rest) by {
      assert users == [users[0]] + rest;
      forall e | e in Emails(users) ensures e in {users[0].email} + Emails(rest) {
        var u :| u in users && u.email == e;
        if u != users[0] {
          var k :| 0 <= k < |users| && users[k] == u;
          assert k > 0 && rest[k - 1] == u;
        }
      }
    }
    if users[0].email == email {
      forall e | e in Emails(rest) ensures e != email {
        var u :| u in rest && u.email == e;
        var k :| 0 <= k < |rest| && rest[k] == u;
        assert users[k + 1] == u;
      }
      CountEmailAbsent(rest, email);
    } else {
      CountEmailUnique(rest, email);
    }
  }

  /** Appending an account whose e-mail is new keeps e-mails unique. */
  lemma AppendKeepsEmailsUnique(users: seq<User>, u: User)
    requires UniqueEmails(users) && u.email !in Emails(users)
    ensures UniqueEmails(users + [u])
  {
    forall i | 0 <= i < |users| ensures users[i].email != u.email {
      assert users[i] in users;
    }
  }

  lemma AppendKeepsUserIdsUnique(users: seq<User>, u: User)
    requires UniqueUserIds(users) && u.id !in UserIds(users)
    ensures UniqueUserIds(users + [u])
  {
    forall i | 0 <= i < |users| ensures users[i].id != u.id {
      assert users[i] in users;
    }
  }

  class UserService {
    const db: Database

    constructor (db: Database)
      ensures this.db == db
    {
      this.db := db;
    }

    /** `getUserById`. */
    function GetUserById(id: Id): (r: Result<User>)
      reads db
      ensures r.Ok? <==> id in UserIds(db.users)
      ensures r.Ok? ==> r.value in db.users && r.value.id == id
      ensures r.Err? ==> r.error == UserNotFound
    {
      match FindUser(db.users, id)
      case Some(u) => Ok(u)
      case None => Err(UserNotFound)
    }

    /** `registerUser`: rejects an e-mail in use without saving or sending
        anything; otherwise saves one USER account and asks for a welcome e-mail. */
    method RegisterUser(req: RegisterRequest, id: Id, now: Time, encode: string -> string)
      returns (r: Outcome)
      requires db.Valid()
      requires id !in UserIds(db.users)
      modifies db
      ensures db.Valid()
      ensures req.email in Emails(old(db.users)) ==>
                r == Failed(EmailAlreadyExists)
                && db.users == old(db.users) && db.outbox == old(db.outbox)
      ensures req.email !in Emails(old(db.users)) ==>
                r == Done
                && db.users == old(db.users) + [NewUser(id, req, now, encode)]
                && db.outbox == old(db.outbox) + [WelcomeEmail(req.email)]
      ensures db.products == old(db.products) && db.carts == old(db.carts)
      ensures db.orders == old(db.orders)
    {
      if EmailRow(db.users, req.email) >= 0 {
        return Failed(EmailAlreadyExists);
      }
      var u := NewUser(id, req, now, encode);
      AppendKeepsEmailsUnique(db.users, u);
      AppendKeepsUserIdsUnique(db.users, u);
      db.users := db.users + [u];
      db.outbox := db.outbox + [WelcomeEmail(u.email)];
      r := Done;
    }

    /** `editUserInfo`: fails on an unknown id without saving; a null phone
        number then fails on `isEmpty` without saving; otherwise edits that row. */
    method EditUserInfo(userId: Id, req: UserEditRequest) returns (r: Outcome)
      requires db.Valid()
      modifies db
      ensures db.Valid()
      ensures userId !in UserIds(old(db.users)) ==>
                r == Failed(UserNotFound) && db.users == old(db.users)
      ensures userId in UserIds(old(db.users)) && req.phoneNumber.None? ==>
                r == Failed(MissingPhone) && db.users == old(db.users)
      ensures userId in UserIds(old(db.users)) && req.phoneNumber.Some? ==>
                var k := UserRow(old(db.users), userId);
                r == Done && db.users == old(db.users)[k := EditFields(old(db.users)[k], req)]
      ensures db.products == old(db.products) && db.carts == old(db.carts)
      ensures db.orders == old(db.orders) && db.outbox == old(db.outbox)
    {
      var k := UserRow(db.users, userId);
      if k < 0 {
        return Failed(UserNotFound);
      }
      if req.phoneNumber.None? {
        return Failed(MissingPhone);
      }
      db.users := db.users[k := EditFields(db.users[k], req)];
      r := Done;
    }

    /** `changeRole`: swaps USER and ADMIN on one row. */
    method ChangeRole(userId: Id) returns (r: Outcome)
      requires db.Valid()
      modifies db
      ensures db.Valid()
      ensures userId !in UserIds(old(db.users)) ==>
                r == Failed(UserNotFound) && db.users == old(db.users)
      ensures userId in UserIds(old(db.users)) ==>
                var k := UserRow(old(db.users), userId);
                r == Done
                && db.users == old(db.users)[k := old(db.users)[k].(role := ToggleRole(old(db.users)[k].role))]
      ensures db.products == old(db.products) && db.carts == old(db.carts)
      ensures db.orders == old(db.orders) && db.outbox == old(db.outbox)
    {
      var k := UserRow(db.users, userId);
      if k < 0 {
        return Failed(UserNotFound);
      }
      db.users := db.users[k := db.users[k].(role := ToggleRole(db.users[k].role))];
      r := Done;
    }

    /** `createAdminIfNotExist`: after any number of calls exactly one account
        has the administrator's e-mail, and a call with it present changes nothing. */
    method CreateAdminIfNotExist(id: Id, now: Time, encode: string -> string)
      requires db.Valid()
      requires id !in UserIds(db.users)
      modifies db
      ensures db.Valid()
      ensures CountEmail(db.users, AdminEmail) == 1
      ensures AdminEmail in Emails(old(db.users)) ==> db.users == old(db.users)
      ensures AdminEmail !in Emails(old(db.users)) ==>
                db.users == old(db.users) + [AdminUser(id, now, encode)]
      ensures db.products == old(db.products) && db.carts == old(db.carts)
      ensures db.orders == old(db.orders) && db.outbox == old(db.outbox)
    {
      if EmailRow(db.users, AdminEmail) < 0 {
        var u := AdminUser(id, now, encode);
        AppendKeepsEmailsUnique(db.users, u);
        AppendKeepsUserIdsUnique(db.users, u);
        db.users := db.users + [u];
        assert u in db.users;
      }
      CountEmailUnique(db.users, AdminEmail);
    }
  }
}
