/**
 * The records the screens receive from the backend, the JavaScript
 * truthiness conventions they apply to missing fields, and the one
 * duplicate-username test that the admin panel and the user screen share.
 */
module Records {
  import opened Wrappers
  import opened Text
  import opened Seqs

  /** A record id as JSON delivers it: a number, a string, or missing. */
  datatype Id = Num(n: int) | Str(s: string) | Undefined | Null

  /** `String(id)`. */
  function IdString(id: Id): (s: string)
    ensures id.Num? ==> s == IntToString(id.n)
  {
    match id
    case Num(n) => IntToString(n)
    case Str(s) => s
    case Undefined => "undefined"
    case Null => "null"
  }

  /** Two numeric ids print alike exactly when they are the same number. */
  lemma IdStringNumInjective(m: int, n: int)
    ensures IdString(Num(m)) == IdString(Num(n)) <==> m == n
  {
    IntToStringInjective(m, n);
  }

  /** Comparing printed ids equates a numeric id with the string of its digits. */
  lemma IdStringEquatesNumberAndText()
    ensures IdString(Num(42)) == IdString(Str("42"))
    ensures Num(42) != Str("42")
  {
    assert NatToString(4) == "4";
    assert NatToString(42) == NatToString(4) + [DigitChar(2)];
  }

  /** `x || ''` for a string that may be missing. */
  function OrEmpty(o: Option<string>): (s: string)
    ensures o.Some? ==> s == o.value
    ensures o.None? ==> s == ""
  {
    o.GetOr("")
  }

  /** JavaScript truthiness of a possibly missing string. */
  predicate Truthy(o: Option<string>) {
    o.Some? && o.value != ""
  }

  /** `x || null`: a missing or empty string both become null. */
  function OrNull(o: Option<string>): (r: Option<string>)
    ensures r.Some? <==> Truthy(o)
    ensures r.Some? ==> r == o
  {
    if Truthy(o) then o else None
  }

  /** A catalog item (`id`, `product_name`, `segment`, `image_base64`,
      `spec_list`); a missing `spec_list` is the empty map. */
  datatype Product = Product(
    id: Id,
    name: Option<string>,
    segment: Option<string>,
    image: Option<string>,
    specs: map<string, string>)

  /** A user record (`id`, `username`, `password`, `role_type`, `img_profile_base64`). */
  datatype UserRecord = UserRecord(
    id: Id,
    username: Option<string>,
    password: Option<string>,
    role: Option<string>,
    image: Option<string>)

  /** The fields of a user form, and the body of a user POST. */
  datatype UserForm = UserForm(
    username: Option<string>,
    password: string,
    role: string,
    image: Option<string>)

  /** What an awaited GET of a list yields: a JSON array, some other JSON
      value, or an exception (network failure, unparsable body). */
  datatype Response<T> = Array(items: seq<T>) | NotArray | Threw

  /** The list a `load` leaves: the array it fetched, `[]` for any other
      answer (`x || []`), and `current` when the GET threw, since the
      rejection ends `load` before its setter runs. */
  function Loaded<T>(r: Response<T>, current: seq<T>): seq<T> {
    match r
    case Array(items) => items
    case NotArray => []
    case Threw => current
  }

  /** A request a handler sends: its path and body. */
  datatype Request<T> = Request(path: string, body: T)

  /** How a save handler that checks a username ends. */
  datatype SaveOutcome<T> =
    | MissingInput       // a required field is empty: alert, nothing sent
    | DuplicateName      // the username is taken: alert, nothing written
    | RequestFailed      // the lookup or the write threw: caught and alerted
    | Saved(body: T)     // the write went through with this body

  /** The fields a user PATCH carries; `None` is an absent key. The image key
      is always present, its value possibly null. */
  datatype UserPatch = UserPatch(
    username: Option<string>,
    role: Option<string>,
    image: Option<string>,
    password: Option<string>)

  /** The form of a stored username that the duplicate test compares. */
  function NameKey(u: UserRecord): string {
    Lower(Trim(OrEmpty(u.username)))
  }

  /** `u` counts against `name`: same name ignoring case and surrounding
      whitespace, and not the excluded record (ids compared as strings). */
  predicate Clashes(u: UserRecord, name: string, exclude: Option<Id>) {
    NameKey(u) == Lower(name) && (exclude.None? || IdString(u.id) != IdString(exclude.value))
  }

  /** The predicate `u => Clashes(u, name, exclude)`. */
  function ClashesWith(name: string, exclude: Option<Id>): UserRecord -> bool {
    (u: UserRecord) => Clashes(u, name, exclude)
  }

  /** The duplicate-username test: `Array.isArray(exist) && exist.some(...)`,
      with an optional id whose record is ignored. */
  function IsDuplicate(exist: Response<UserRecord>, name: string, exclude: Option<Id>): (r: bool)
    ensures r ==> exist.Array?
    ensures exist.Array? ==> (r <==> exists i :: 0 <= i < |exist.items| && Clashes(exist.items[i], name, exclude))
  {
    exist.Array? && Any(exist.items, ClashesWith(name, exclude))
  }

  /** Excluding a record can only remove clashes. */
  lemma DuplicateExcludingImpliesPlain(exist: Response<UserRecord>, name: string, id: Id)
    ensures IsDuplicate(exist, name, Some(id)) ==> IsDuplicate(exist, name, None)
  {
  }

  /** A list whose only same-named records carry the excluded id is no duplicate. */
  lemma DuplicateIgnoresOwnRecord(users: seq<UserRecord>, name: string, id: Id)
    requires forall i :: 0 <= i < |users| && NameKey(users[i]) == Lower(name) ==> IdString(users[i].id) == IdString(id)
    ensures !IsDuplicate(Array(users), name, Some(id))
  {
  }

  lemma TrimAliceExample()
    ensures Trim(" Alice ") == "Alice"
  {
    var s := " Alice ";
    assert IsSpace(s[0]) && s[1..] == "Alice ";
    assert !IsSpace("Alice "[0]);
    assert TrimStart("Alice ") == "Alice ";
    assert TrimStart(s) == "Alice ";
    assert IsSpace("Alice "[5]) && "Alice "[..5] == "Alice";
    assert !IsSpace("Alice"[4]);
    assert TrimEnd("Alice") == "Alice";
    assert TrimEnd("Alice ") == "Alice";
  }

  lemma LowerAliceExample()
    ensures Lower("Alice") == "alice" && Lower("aLICE") == "alice"
  {
  }

  lemma AliceKeyExample(u: UserRecord)
    requires u.username == Some(" Alice ")
    ensures NameKey(u) == "alice"
  {
    TrimAliceExample();
    LowerAliceExample();
  }

  /** Case and surrounding whitespace of the stored name do not matter. */
  lemma DuplicateIgnoresCaseExample(u: UserRecord)
    requires u == UserRecord(Num(1), Some(" Alice "), None, Some("user"), None)
    ensures IsDuplicate(Array([u]), "aLICE", None)
  {
    AliceKeyExample(u);
    LowerAliceExample();
    assert Clashes(u, "aLICE", None);
    assert [u][0] == u;
  }

  /** Excluding the record's id, even when given as a string, removes the clash. */
  lemma DuplicateExcludesIdExample(u: UserRecord)
    requires u == UserRecord(Num(1), Some(" Alice "), None, Some("user"), None)
    ensures !IsDuplicate(Array([u]), "aLICE", Some(Str("1")))
  {
    assert IdString(Num(1)) == "1" by {
      assert NatToString(1) == [DigitChar(1)];
    }
    assert !Clashes(u, "aLICE", Some(Str("1")));
  }
}
