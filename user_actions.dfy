/**
 * The control tower's server actions over the user collection:
 * createUserAction (hash the password, create the document, report) and
 * deleteUserAction (delete by id, report). The collection is a class
 * whose document list the actions change; page revalidation is left out.
 */
module UserActions {
  import opened Wrappers
  import opened UserModel

  /** The object an action returns: `{success: true}` or `{error: ...}`. */
  datatype ActionResponse = Success | Failure(error: string)

  const CREATE_FAILED := "Failed to create user. Email might already exist."
  const DELETE_FAILED := "Failed to revoke access."

  /** Why `User.create` rejects a document. */
  datatype CreateError = Invalid(paths: set<string>) | DuplicateEmail(email: string)

  /** `formData.get(key) as string`: null when the form has no such field. */
  function FormField(form: map<string, string>, key: string): Field {
    if key in form then Given(form[key]) else NullField
  }

  predicate EmailTaken(users: seq<UserDoc>, email: string) {
    exists i :: 0 <= i < |users| && users[i].email == email
  }

  predicate UniqueEmails(users: seq<UserDoc>) {
    forall i, j :: 0 <= i < j < |users| ==> users[i].email != users[j].email
  }

  predicate UniqueIds(users: seq<UserDoc>) {
    forall i, j :: 0 <= i < j < |users| ==> users[i].id != users[j].id
  }

  /** `User.create`: the schema's validation, then the unique index on email. */
  function Created(users: seq<UserDoc>, nextId: nat, input: UserInput, now: int): Result<UserDoc, CreateError> {
    var doc := Validate(input, nextId, now);
    if doc.Err? then Err(Invalid(doc.error))
    else if EmailTaken(users, doc.value.email) then Err(DuplicateEmail(doc.value.email))
    else Ok(doc.value)
  }

  /** `findByIdAndDelete` on a valid id: the documents other than that one, in order. */
  function Without(users: seq<UserDoc>, id: nat): (r: seq<UserDoc>)
    ensures |r| <= |users|
  {
    if users == [] then []
    else (if users[0].id == id then [] else [users[0]]) + Without(users[1..], id)
  }

  /** The document createUserAction hands to `User.create`: the password replaced by its hash. */
  function FormInput(form: map<string, string>, hashed: string): UserInput {
    UserInput(FormField(form, "name"), FormField(form, "email"), Given(hashed), FormField(form, "role"))
  }

  /**
   * createUserAction on the collection's documents: the response and the
   * documents afterwards. bcrypt rejects a missing password by throwing.
   */
  function CreateUser(users: seq<UserDoc>, nextId: nat, form: map<string, string>, bcrypt: Bcrypt, salt: nat, now: int): (ActionResponse, seq<UserDoc>) {
    if "password" !in form then (Failure(CREATE_FAILED), users)
    else
      var created := Created(users, nextId, FormInput(form, bcrypt.hash(form["password"], salt)), now);
      if created.Err? then (Failure(CREATE_FAILED), users)
      else (Success, users + [created.value])
  }

  /** deleteUserAction on the collection's documents: a string that is not an ObjectId fails the cast. */
  function DeleteUser(users: seq<UserDoc>, userId: string): (ActionResponse, seq<UserDoc>) {
    var id := ParseObjectId(userId);
    if id.None? then (Failure(DELETE_FAILED), users)
    else (Success, Without(users, id.value))
  }

  /** The user collection. */
  class UserCollection {
    var users: seq<UserDoc>
    var nextId: nat

    /** The unique index on email holds, and ids are distinct and below the next one. */
    predicate Valid()
      reads this
    {
      UniqueEmails(users) && UniqueIds(users) && forall i :: 0 <= i < |users| ==> users[i].id < nextId
    }

    constructor()
      ensures Valid() && users == [] && nextId == 0
    {
      users := [];
      nextId := 0;
    }

    /** `User.find({})`. */
    function All(): seq<UserDoc>
      reads this
    {
      users
    }

    /** `User.create`: a valid document with a fresh email is appended under a fresh id. */
    method Create(input: UserInput, now: int) returns (r: Result<UserDoc, CreateError>)
      requires Valid()
      modifies this
      ensures Valid()
      ensures r == Created(old(users), old(nextId), input, now)
      ensures users == if r.Ok? then old(users) + [r.value] else old(users)
      ensures nextId == if r.Ok? then old(nextId) + 1 else old(nextId)
    {
      r := Created(users, nextId, input, now);
      if r.Ok? {
        AppendKeepsUnique(users, r.value);
        users := users + [r.value];
        nextId := nextId + 1;
      }
    }

    /** `findByIdAndDelete`. */
    method DeleteById(id: nat)
      requires Valid()
      modifies this`users
      ensures Valid()
      ensures users == Without(old(users), id)
    {
      WithoutKeepsUnique(users, id);
      WithoutMembers(users, id);
      users := Without(users, id);
    }
  }

  /** Appending a document with a fresh email and the next id keeps the collection valid. */
  lemma AppendKeepsUnique(users: seq<UserDoc>, doc: UserDoc)
    requires UniqueEmails(users) && UniqueIds(users)
    requires !EmailTaken(users, doc.email)
    requires forall i :: 0 <= i < |users| ==> users[i].id < doc.id
    ensures UniqueEmails(users + [doc]) && UniqueIds(users + [doc])
  {
  }

  /** Deleting by id removes every document with that id and keeps all the others. */
  lemma {:induction false} WithoutMembers(users: seq<UserDoc>, id: nat)
    ensures forall u :: u in Without(users, id) <==> u in users && u.id != id
  {
    if users != [] {
      WithoutMembers(users[1..], id);
    }
  }

  /** Deleting keeps emails and ids unique. */
  lemma {:induction false} WithoutKeepsUnique(users: seq<UserDoc>, id: nat)
    ensures UniqueEmails(users) ==> UniqueEmails(Without(users, id))
    ensures UniqueIds(users) ==> UniqueIds(Without(users, id))
  {
    if users != [] {
      var rest := users[1..];
      WithoutKeepsUnique(rest, id);
      WithoutMembers(rest, id);
      var tail := Without(rest, id);
      if UniqueEmails(users) {
        UniqueEmailsTail(users);
        forall u | u in tail ensures u.email != users[0].email {
          var k :| 0 <= k < |rest| && rest[k] == u;
          assert rest[k] == users[k + 1];
        }
        ConsUniqueEmails(users[0], tail);
      }
      if UniqueIds(users) {
        UniqueIdsTail(users);
        forall u | u in tail ensures u.id != users[0].id {
          var k :| 0 <= k < |rest| && rest[k] == u;
          assert rest[k] == users[k + 1];
        }
        ConsUniqueIds(users[0], tail);
      }
      if users[0].id == id {
        assert Without(users, id) == tail;
      } else {
        assert Without(users, id) == [users[0]] + tail;
      }
    }
  }

  lemma UniqueEmailsTail(users: seq<UserDoc>)
    requires users != [] && UniqueEmails(users)
    ensures UniqueEmails(users[1..])
  {
    forall i, j | 0 <= i < j < |users| - 1 ensures users[1..][i].email != users[1..][j].email {
      assert users[1..][i] == users[i + 1] && users[1..][j] == users[j + 1];
    }
  }

  lemma UniqueIdsTail(users: seq<UserDoc>)
    requires users != [] && UniqueIds(users)
    ensures UniqueIds(users[1..])
  {
    forall i, j | 0 <= i < j < |users| - 1 ensures users[1..][i].id != users[1..][j].id {
      assert users[1..][i] == users[i + 1] && users[1..][j] == users[j + 1];
    }
  }

  lemma ConsUniqueEmails(x: UserDoc, s: seq<UserDoc>)
    requires UniqueEmails(s) && forall u :: u in s ==> u.email != x.email
    ensures UniqueEmails([x] + s)
  {
    forall i, j | 0 <= i < j < |s| + 1 ensures ([x] + s)[i].email != ([x] + s)[j].email {
      assert ([x] + s)[j] == s[j - 1];
      if i > 0 {
        assert ([x] + s)[i] == s[i - 1];
      }
    }
  }

  lemma ConsUniqueIds(x: UserDoc, s: seq<UserDoc>)
    requires UniqueIds(s) && forall u :: u in s ==> u.id != x.id
    ensures UniqueIds([x] + s)
  {
    forall i, j | 0 <= i < j < |s| + 1 ensures ([x] + s)[i].id != ([x] + s)[j].id {
      assert ([x] + s)[j] == s[j - 1];
      if i > 0 {
        assert ([x] + s)[i] == s[i - 1];
      }
    }
  }

  /** Deleting an id no document has changes nothing. */
  lemma {:induction false} WithoutNoMatch(users: seq<UserDoc>, id: nat)
    requires forall i :: 0 <= i < |users| ==> users[i].id != id
    ensures Without(users, id) == users
  {
    if users != [] {
      var rest := users[1..];
      forall i | 0 <= i < |rest| ensures rest[i].id != id {
        assert rest[i] == users[i + 1];
      }
      WithoutNoMatch(rest, id);
      assert users[0].id != id;
      assert Without(users, id) == [users[0]] + rest;
      assert [users[0]] + rest == users;
    }
  }

  /** With unique ids, deleting an id some document has removes exactly one. */
  lemma {:induction false} WithoutRemovesOne(users: seq<UserDoc>, id: nat)
    requires UniqueIds(users) && exists i :: 0 <= i < |users| && users[i].id == id
    ensures |Without(users, id)| == |users| - 1
  {
    var rest := users[1..];
    assert forall i :: 0 <= i < |rest| ==> rest[i] == users[i + 1];
    if users[0].id == id {
      WithoutNoMatch(rest, id);
    } else {
      WithoutRemovesOne(rest, id);
    }
  }

  /** createUserAction. */
  method CreateUserAction(db: UserCollection, form: map<string, string>, bcrypt: Bcrypt, salt: nat, now: int) returns (resp: ActionResponse)
    requires db.Valid()
    modifies db
    ensures db.Valid()
    ensures (resp, db.users) == CreateUser(old(db.users), old(db.nextId), form, bcrypt, salt, now)
  {
    if "password" !in form {
      return Failure(CREATE_FAILED);
    }
    var hashed := bcrypt.hash(form["password"], salt);
    var created := db.Create(FormInput(form, hashed), now);
    if created.Err? {
      return Failure(CREATE_FAILED);
    }
    resp := Success;
  }

  /** deleteUserAction. */
  method DeleteUserAction(db: UserCollection, userId: string) returns (resp: ActionResponse)
    requires db.Valid()
    modifies db
    ensures db.Valid()
    ensures (resp, db.users) == DeleteUser(old(db.users), userId)
  {
    var id := ParseObjectId(userId);
    if id.None? {
      return Failure(DELETE_FAILED);
    }
    db.DeleteById(id.value);
    resp := Success;
  }

  /**
   * A create succeeds exactly when the form has a password, a non-empty
   * name and email, a role among the three names, and an email no one
   * has, and the hash is non-empty; the new document then stores the hash
   * (not the password) and the form's name, email and role. A failing
   * create reports the one error message and adds nobody.
   */
  lemma CreateUserRules(users: seq<UserDoc>, nextId: nat, form: map<string, string>, bcrypt: Bcrypt, salt: nat, now: int)
    ensures var (resp, after) := CreateUser(users, nextId, form, bcrypt, salt, now);
      && (resp == Success <==>
            && "password" in form && bcrypt.hash(form["password"], salt) != ""
            && "name" in form && form["name"] != ""
            && "email" in form && form["email"] != ""
            && "role" in form && form["role"] in ROLES
            && !EmailTaken(users, form["email"]))
      && (resp == Success ==>
            after == users + [UserDoc(nextId, form["name"], form["email"], bcrypt.hash(form["password"], salt), RoleOf(form["role"]).value, now)])
      && (resp != Success ==> resp == Failure(CREATE_FAILED) && after == users)
  {
    RoleNames();
    if "password" in form {
      ValidateRules(FormInput(form, bcrypt.hash(form["password"], salt)), nextId, now);
    }
  }

  /**
   * Through the form an absent role arrives as null, which the enum
   * rejects: the schema's "viewer" default is never reached this way.
   */
  lemma FormRoleNeverDefaults(users: seq<UserDoc>, nextId: nat, form: map<string, string>, bcrypt: Bcrypt, salt: nat, now: int)
    requires "role" !in form
    ensures CreateUser(users, nextId, form, bcrypt, salt, now).0 == Failure(CREATE_FAILED)
  {
    if "password" in form {
      ValidateRules(FormInput(form, bcrypt.hash(form["password"], salt)), nextId, now);
    }
  }

  /** With a hash that never returns its input, no stored password equals the plaintext. */
  lemma StoresHashOnly(users: seq<UserDoc>, nextId: nat, form: map<string, string>, bcrypt: Bcrypt, salt: nat, now: int)
    requires forall p, s :: bcrypt.hash(p, s) != p
    requires CreateUser(users, nextId, form, bcrypt, salt, now).0 == Success
    ensures var after := CreateUser(users, nextId, form, bcrypt, salt, now).1;
      after[|after| - 1].password == bcrypt.hash(form["password"], salt) != form["password"]
  {
    CreateUserRules(users, nextId, form, bcrypt, salt, now);
  }

  /** Both actions keep emails unique. */
  lemma ActionsKeepEmailsUnique(users: seq<UserDoc>, nextId: nat, form: map<string, string>, bcrypt: Bcrypt, salt: nat, now: int, userId: string)
    requires UniqueEmails(users)
    ensures UniqueEmails(CreateUser(users, nextId, form, bcrypt, salt, now).1)
    ensures UniqueEmails(DeleteUser(users, userId).1)
  {
    if ParseObjectId(userId).Some? {
      WithoutKeepsUnique(users, ParseObjectId(userId).value);
    }
  }

  /**
   * A delete with a well-formed id succeeds and keeps every other user,
   * even when no user has that id (then nothing changes); a string that
   * is not an id fails with the one error message and changes nothing.
   */
  lemma DeleteUserRules(users: seq<UserDoc>, userId: string)
    ensures var (resp, after) := DeleteUser(users, userId);
      && (ParseObjectId(userId).None? ==> resp == Failure(DELETE_FAILED) && after == users)
      && (ParseObjectId(userId).Some? ==>
            && resp == Success
            && (forall u :: u in after <==> u in users && u.id != ParseObjectId(userId).value)
            && ((forall i :: 0 <= i < |users| ==> users[i].id != ParseObjectId(userId).value) ==> after == users))
  {
    if ParseObjectId(userId).Some? {
      var id := ParseObjectId(userId).value;
      WithoutMembers(users, id);
      if forall i :: 0 <= i < |users| ==> users[i].id != id {
        WithoutNoMatch(users, id);
      }
    }
  }

  /** Deleting a user by the text form of its own id removes it. */
  lemma DeleteByRenderedId(users: seq<UserDoc>, u: UserDoc)
    requires u in users && u.id < OBJECT_ID_SPACE
    ensures DeleteUser(users, IdToString(u.id)).0 == Success
    ensures u !in DeleteUser(users, IdToString(u.id)).1
  {
    ObjectIdRoundTrip(u.id);
    WithoutMembers(users, u.id);
  }
}
