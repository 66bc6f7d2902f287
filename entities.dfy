/**
 * The rows of the vault's tables and the request payloads of the services.
 * Every column that the database allows to be NULL is an `Option`; a field of a
 * partial-update payload is a `Patch`, which distinguishes a field the client
 * left out from one it sent (possibly as an explicit null).
 */
module Entities {
  import opened Wrappers

  /** A server-side clock reading; its value is opaque to the model. */
  type Timestamp = int

  /** The typed errors the services raise. */
  datatype Error =
    | NotFound(msg: string)
    | PermissionDenied(msg: string)
    | Duplicate(msg: string)
    | Authentication(msg: string)
    /** The RuntimeError raised by the encryption wrapper. */
    | Runtime(msg: string)
    /** A unique or primary-key constraint of the database rejected the write. */
    | Integrity(msg: string)

  /** A row of the users table. */
  datatype User = User(
    id: int,
    username: string,
    email: Option<string>,
    hashedPassword: string,
    isActive: Option<bool>,
    isAdmin: Option<bool>)

  /** Python truthiness of the nullable is_admin column. */
  predicate IsAdmin(u: User) {
    u.isAdmin == Some(true)
  }

  /** A row of the groups table; owner_id loses its value when the owning user is deleted. */
  datatype Group = Group(
    id: int,
    name: Option<string>,
    description: Option<string>,
    ownerId: Option<int>)

  /** A row of the passwords table (a credential entry of a group). */
  datatype Password = Password(
    id: int,
    title: Option<string>,
    username: Option<string>,
    encryptedPassword: string,
    url: Option<string>,
    notes: Option<string>,
    groupId: int,
    createdAt: Option<Timestamp>,
    updatedAt: Option<Timestamp>)

  /** A row of the logs table. */
  datatype Log = Log(id: int, time: Timestamp, msg: string)

  /** A row of the log_associations table; all three columns form its primary key. */
  datatype LogAssociation = LogAssociation(logId: int, associationId: int, associationType: string)

  /** One field of a partial update: left out by the client, or sent with a value. */
  datatype Patch<T> = Absent | Present(value: T)

  /** The value a field holds after a patch has been applied to it. */
  function Patched<T>(p: Patch<T>, current: T): (r: T)
    ensures p.Absent? ==> r == current
    ensures p.Present? ==> r == p.value
  {
    match p
    case Absent => current
    case Present(v) => v
  }

  /**
   * The `setattr` loop of an update: `assign` applied to each item of the
   * patch dict in turn, the last item applied last.
   */
  function ApplyAll<R, F>(row: R, items: seq<F>, assign: (R, F) -> R): (r: R)
    ensures |items| == 0 ==> r == row
    ensures |items| == 1 ==> r == assign(row, items[0])
    decreases |items|
  {
    if |items| == 0 then row else assign(ApplyAll(row, items[..|items| - 1], assign), items[|items| - 1])
  }

  /** `for field, value in items: setattr(row, field, value)`. */
  method SetEach<R, F>(row: R, items: seq<F>, assign: (R, F) -> R) returns (r: R)
    ensures r == ApplyAll(row, items, assign)
  {
    r := row;
    var i := 0;
    while i < |items|
      invariant 0 <= i <= |items|
      invariant r == ApplyAll(row, items[..i], assign)
    {
      r := assign(r, items[i]);
      assert items[..i + 1][..i] == items[..i];
      i := i + 1;
    }
    assert items[..|items|] == items;
  }

  /** Applying two dicts' items in sequence is applying their concatenation. */
  lemma {:induction false} ApplyAllAppend<R, F>(row: R, a: seq<F>, b: seq<F>, assign: (R, F) -> R)
    ensures ApplyAll(row, a + b, assign) == ApplyAll(ApplyAll(row, a, assign), b, assign)
    decreases |b|
  {
    if |b| == 0 {
      assert a + b == a;
    } else {
      assert (a + b)[..|a + b| - 1] == a + b[..|b| - 1];
      ApplyAllAppend(row, a, b[..|b| - 1], assign);
    }
  }

  datatype GroupCreate = GroupCreate(name: string, description: Option<string>)

  datatype GroupUpdate = GroupUpdate(name: Patch<Option<string>>, description: Patch<Option<string>>)

  datatype PasswordCreate = PasswordCreate(
    title: string,
    username: string,
    url: Option<string>,
    notes: Option<string>,
    password: string,
    groupId: int)

  datatype PasswordUpdate = PasswordUpdate(
    title: Patch<Option<string>>,
    username: Patch<Option<string>>,
    password: Patch<Option<string>>,
    url: Patch<Option<string>>,
    notes: Patch<Option<string>>)

  datatype UserCreate = UserCreate(username: string, email: string, password: string, isAdmin: bool)

  datatype UserUpdate = UserUpdate(
    email: Patch<Option<string>>,
    isActive: Patch<Option<bool>>,
    isAdmin: Patch<Option<bool>>)

  /** Decimal rendering of an id, as Python's str() of a non-negative int. */
  function NatToString(n: nat): (s: string)
    ensures |s| > 0
    ensures forall i :: 0 <= i < |s| ==> '0' <= s[i] <= '9'
    ensures DigitsValue(s) == n
    ensures s[0] == '0' ==> n == 0
  {
    if n < 10 then
      var s := [DigitChar(n)];
      assert s[..0] == [];
      s
    else
      var prefix := NatToString(n / 10);
      var s := prefix + [DigitChar(n % 10)];
      assert s[..|s| - 1] == prefix;
      s
  }

  /** The number a string of decimal digits spells, read most significant digit first. */
  function DigitsValue(s: string): nat
    requires forall i :: 0 <= i < |s| ==> '0' <= s[i] <= '9'
  {
    if s == [] then 0 else 10 * DigitsValue(s[..|s| - 1]) + (s[|s| - 1] as int - '0' as int)
  }

  /** Distinct ids render differently, so a log message names exactly the ids it was built from. */
  lemma NatToStringInjective(a: nat, b: nat)
    ensures NatToString(a) == NatToString(b) <==> a == b
  {
  }

  function DigitChar(d: nat): (c: char)
    requires d < 10
    ensures '0' <= c <= '9'
    ensures c as int - '0' as int == d
  {
    ('0' as int + d) as char
  }
}
