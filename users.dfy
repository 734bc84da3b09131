/**
 * The control tower's user document: the schema's required fields, the
 * role enumeration with its default, the creation-time default, and the
 * 24-hex-digit text form of a document id. bcrypt is abstract: a hash
 * function of the password and a salt, and a compare function.
 */
module UserModel {
  import opened Wrappers

  datatype Role = Admin | Investigator | Viewer

  /** The enumeration, in the schema's order. */
  const ROLES: seq<string> := ["admin", "investigator", "viewer"]

  function RoleName(r: Role): string {
    match r
    case Admin => "admin"
    case Investigator => "investigator"
    case Viewer => "viewer"
  }

  /** The enum validator: exactly the three names are accepted. */
  function RoleOf(s: string): (r: Option<Role>)
    ensures r.Some? ==> RoleName(r.value) == s
  {
    if s == "admin" then Some(Admin)
    else if s == "investigator" then Some(Investigator)
    else if s == "viewer" then Some(Viewer)
    else None
  }

  /** Names and roles correspond one to one, and the accepted names are exactly the enumeration. */
  lemma RoleNames()
    ensures forall r :: RoleOf(RoleName(r)) == Some(r)
    ensures forall s :: RoleOf(s).Some? <==> s in ROLES
    ensures ROLES == [RoleName(Admin), RoleName(Investigator), RoleName(Viewer)]
  {
  }

  /** How a value reaches the schema: left out of the document, null, or a string. */
  datatype Field = Omitted | NullField | Given(s: string)

  datatype UserInput = UserInput(name: Field, email: Field, password: Field, role: Field)

  datatype UserDoc = UserDoc(id: nat, name: string, email: string, password: string, role: Role, createdAt: int)

  /** The `required` validator on a string: null, undefined and "" fail. */
  function RequiredString(f: Field): Option<string> {
    if f.Given? && f.s != "" then Some(f.s) else None
  }

  /**
   * The role path: the default "viewer" fills in only an omitted value; the
   * enum validator then rejects null and any other name.
   */
  function RoleValue(f: Field): Option<Role> {
    match f
    case Omitted => Some(Viewer)
    case NullField => None
    case Given(s) => RoleOf(s)
  }

  /** The failing paths of a document that does not validate. */
  function FailingPaths(input: UserInput): set<string> {
    (if RequiredString(input.name).None? then {"name"} else {})
    + (if RequiredString(input.email).None? then {"email"} else {})
    + (if RequiredString(input.password).None? then {"password"} else {})
    + (if RoleValue(input.role).None? then {"role"} else {})
  }

  /** Schema validation with defaults: the document to insert, or every failing path. */
  function Validate(input: UserInput, id: nat, now: int): Result<UserDoc, set<string>> {
    if FailingPaths(input) != {} then Err(FailingPaths(input))
    else Ok(UserDoc(id, RequiredString(input.name).value, RequiredString(input.email).value,
      RequiredString(input.password).value, RoleValue(input.role).value, now))
  }

  /**
   * A document validates exactly when name, email and password are
   * non-empty strings and the role is omitted or one of the three names;
   * it then carries those strings, the named role or "viewer" when the
   * role was omitted, and the creation time as createdAt.
   */
  lemma ValidateRules(input: UserInput, id: nat, now: int)
    ensures Validate(input, id, now).Ok? <==>
      && input.name.Given? && input.name.s != ""
      && input.email.Given? && input.email.s != ""
      && input.password.Given? && input.password.s != ""
      && (input.role.Omitted? || (input.role.Given? && input.role.s in ROLES))
    ensures Validate(input, id, now).Ok? ==>
      var doc := Validate(input, id, now).value;
      && doc == UserDoc(id, input.name.s, input.email.s, input.password.s, doc.role, now)
      && (input.role.Omitted? ==> doc.role == Viewer)
      && (input.role.Given? ==> RoleName(doc.role) == input.role.s)
    ensures Validate(input, id, now).Err? ==>
      && ("role" in Validate(input, id, now).error <==> !(input.role.Omitted? || (input.role.Given? && input.role.s in ROLES)))
      && ("name" in Validate(input, id, now).error <==> !(input.name.Given? && input.name.s != ""))
  {
    RoleNames();
  }

  /** bcrypt: `hash(password, salt)` and `compare(password, hash)`. */
  datatype Bcrypt = Bcrypt(hash: (string, nat) -> string, compare: (string, string) -> bool)


  function HexDigit(d: nat): char
    requires d < 16
  {
    if d < 10 then ('0' as int + d) as char else ('a' as int + d - 10) as char
  }

  /** The value of one hex digit, either case. */
  function HexValue(c: char): Option<nat> {
    if '0' <= c <= '9' then Some(c as int - '0' as int)
    else if 'a' <= c <= 'f' then Some(c as int - 'a' as int + 10)
    else if 'A' <= c <= 'F' then Some(c as int - 'A' as int + 10)
    else None
  }

  function Power16(w: nat): (p: nat)
    ensures p > 0
  {
    if w == 0 then 1 else 16 * Power16(w - 1)
  }

  /** The low `width` hex digits of n, most significant first. */
  function HexString(n: nat, width: nat): (s: string)
    ensures |s| == width
  {
    if width == 0 then ""
    else HexString(n / 16, width - 1) + [HexDigit(n % 16)]
  }

  /** The value of a string of hex digits, or None when some character is not one. */
  function HexNumber(s: string): Option<nat> {
    if s == [] then Some(0)
    else
      var front := HexNumber(s[..|s| - 1]);
      var last := HexValue(s[|s| - 1]);
      if front.None? || last.None? then None
      else Some(front.value * 16 + last.value)
  }

  /** The number of distinct ids a 12-byte ObjectId can hold: 16^24. */
  const OBJECT_ID_SPACE: nat := Power16(24)

  /** `_id.toString()`: 24 lowercase hex digits. */
  function IdToString(id: nat): string {
    HexString(id, 24)
  }

  /** Casting a string to an ObjectId: exactly 24 hex digits, or a cast error. */
  function ParseObjectId(s: string): Option<nat> {
    if |s| != 24 then None else HexNumber(s)
  }

  lemma HexDigitValue(d: nat)
    requires d < 16
    ensures HexValue(HexDigit(d)) == Some(d)
  {
  }

  /** Reading back `width` rendered digits gives the number, when it fits in them. */
  lemma {:induction false} HexStringValue(n: nat, width: nat)
    requires n < Power16(width)
    ensures HexNumber(HexString(n, width)) == Some(n)
  {
    if width > 0 {
      var s := HexString(n, width);
      DivBound(n, Power16(width - 1));
      HexStringValue(n / 16, width - 1);
      assert s[..|s| - 1] == HexString(n / 16, width - 1);
      HexDigitValue(n % 16);
    }
  }

  /** Dropping the last hex digit of a number below 16p leaves one below p. */
  lemma DivBound(n: nat, p: nat)
    requires n < 16 * p
    ensures n / 16 < p
  {
    assert n == (n / 16) * 16 + n % 16;
  }

  /** Every id an ObjectId can hold survives the round trip through its text form. */
  lemma ObjectIdRoundTrip(id: nat)
    requires id < OBJECT_ID_SPACE
    ensures ParseObjectId(IdToString(id)) == Some(id)
  {
    HexStringValue(id, 24);
  }
}
