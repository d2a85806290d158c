/**
 * The admin panel: the catalog tab (search, sort by segment, the add and
 * edit forms) and the users tab (search, sort by role then name, the add
 * and edit forms with their duplicate-username check).
 */
module AdminPanel {
  import opened Wrappers
  import opened Text
  import opened Seqs
  import opened Sorting
  import opened Records
  import Compare

  /** A key with its display title. */
  datatype Choice = Choice(key: string, title: string)

  /** The segment chips of the product forms. */
  const SEGMENTS: seq<Choice> := [
    Choice("budget", "ประหยัด"),
    Choice("midrange", "ระดับกลาง"),
    Choice("flagship", "ระดับท็อป")
  ]

  /** The spec inputs of the product forms. */
  const SPEC_FIELDS: seq<Choice> := [
    Choice("cpu", "CPU"),
    Choice("gpu", "GPU"),
    Choice("display_size", "ขนาดหน้าจอ"),
    Choice("display_type", "ประเภทจอ"),
    Choice("ram", "RAM"),
    Choice("rom", "ROM"),
    Choice("battery", "แบตเตอรี่")
  ]

  /** The admin edits exactly the fields the comparison shows, in the same
      order and with the same titles. */
  lemma SpecFieldsAgreeWithCompare()
    ensures |SPEC_FIELDS| == |Compare.SPEC_FIELDS|
    ensures forall i :: 0 <= i < |SPEC_FIELDS| ==>
      SPEC_FIELDS[i].key == Compare.SPEC_FIELDS[i].key && SPEC_FIELDS[i].title == Compare.SPEC_FIELDS[i].title
  {
  }

  predicate IsSpecKey(k: string) {
    exists i :: 0 <= i < |SPEC_FIELDS| && SPEC_FIELDS[i].key == k
  }

  // ---------------------------------------------------------------------
  // Product forms
  // ---------------------------------------------------------------------

  /** The add and edit forms of a product. */
  datatype ProductForm = ProductForm(
    name: Option<string>,
    segment: Option<string>,
    image: Option<string>,
    specs: map<string, string>)

  /** `createEmptyForm()`. */
  function EmptyProductForm(): ProductForm {
    ProductForm(Some(""), Some("midrange"), None,
      map["cpu" := "", "gpu" := "", "display_size" := "", "display_type" := "", "ram" := "", "rom" := "", "battery" := ""])
  }

  /** The guard of both product saves: a non-empty name. */
  predicate CanSaveProduct(f: ProductForm) {
    Truthy(f.name)
  }

  /** The empty form has an empty name, segment "midrange", no image and
      every spec key mapped to the empty string, and cannot be saved. */
  lemma EmptyProductFormSpec()
    ensures EmptyProductForm().name == Some("") && EmptyProductForm().segment == Some("midrange")
    ensures EmptyProductForm().image.None?
    ensures forall i :: 0 <= i < |SPEC_FIELDS| ==>
      SPEC_FIELDS[i].key in EmptyProductForm().specs && EmptyProductForm().specs[SPEC_FIELDS[i].key] == ""
    ensures forall k :: k in EmptyProductForm().specs ==> IsSpecKey(k) && EmptyProductForm().specs[k] == ""
    ensures !CanSaveProduct(EmptyProductForm())
  {
    var m := EmptyProductForm().specs;
    forall k | k in m ensures IsSpecKey(k) {
      if k == "cpu" { assert SPEC_FIELDS[0].key == k; }
      else if k == "gpu" { assert SPEC_FIELDS[1].key == k; }
      else if k == "display_size" { assert SPEC_FIELDS[2].key == k; }
      else if k == "display_type" { assert SPEC_FIELDS[3].key == k; }
      else if k == "ram" { assert SPEC_FIELDS[4].key == k; }
      else if k == "rom" { assert SPEC_FIELDS[5].key == k; }
      else { assert SPEC_FIELDS[6].key == k; }
    }
  }

  /** The edit form filled from an item: its name and segment, its image or
      null, and a copy of its specs. */
  function EditFormOf(item: Product): (f: ProductForm)
    ensures f.name == item.name && f.segment == item.segment && f.specs == item.specs
    ensures f.image == OrNull(item.image)
  {
    ProductForm(item.name, item.segment, OrNull(item.image), item.specs)
  }

  /** One edit an input of a product form makes. */
  datatype ProductEdit = SetName(t: string) | SetSegment(k: string) | SetSpec(key: string, t: string)

  function ApplyProductEdit(f: ProductForm, e: ProductEdit): ProductForm {
    match e
    case SetName(t) => f.(name := Some(t))
    case SetSegment(k) => f.(segment := Some(k))
    case SetSpec(key, t) => f.(specs := f.specs[key := t])
  }

  /** Each input changes its own field and nothing else of the form. */
  lemma ApplyProductEditFrame(f: ProductForm, e: ProductEdit)
    ensures var g := ApplyProductEdit(f, e);
            && g.image == f.image
            && (e.SetName? ==> g.name == Some(e.t) && g.segment == f.segment && g.specs == f.specs)
            && (e.SetSegment? ==> g.segment == Some(e.k) && g.name == f.name && g.specs == f.specs)
            && (e.SetSpec? ==>
                  && g.name == f.name && g.segment == f.segment
                  && g.specs.Keys == f.specs.Keys + {e.key} && g.specs[e.key] == e.t
                  && forall k :: k in f.specs && k != e.key ==> g.specs[k] == f.specs[k])
  {
  }

  /** The image an image-library pick yields: only an uncancelled pick that
      returned non-empty data counts. */
  function PickedImage(canceled: bool, base64: Option<string>): (r: Option<string>)
    ensures r.Some? <==> !canceled && Truthy(base64)
    ensures r.Some? ==> r == base64
  {
    if !canceled && Truthy(base64) then base64 else None
  }

  // ---------------------------------------------------------------------
  // Product search and sort
  // ---------------------------------------------------------------------

  /** The name or the segment, lower-cased, contains `q`; a missing one does not. */
  function ProductMatches(q: string): Product -> bool {
    (i: Product) =>
      (i.name.Some? && Contains(Lower(i.name.value), q))
      || (i.segment.Some? && Contains(Lower(i.segment.value), q))
  }

  /** Product `filtered`: the query is trimmed and lower-cased first, and an
      empty result of that keeps the whole list. */
  function FilterProducts(list: seq<Product>, query: string): seq<Product> {
    var q := Lower(Trim(query));
    if q == "" then list else Filter(list, ProductMatches(q))
  }

  /** The search returns the list for a blank query, and otherwise the
      matching items, only those, in list order. */
  lemma FilterProductsSpec(list: seq<Product>, query: string)
    ensures Trim(query) == "" ==> FilterProducts(list, query) == list
    ensures var q := Lower(Trim(query)); var r := FilterProducts(list, query);
            q != "" ==>
              && IsSubsequence(r, list)
              && (forall i :: 0 <= i < |r| ==> ProductMatches(q)(r[i]))
              && (forall i :: 0 <= i < |list| && ProductMatches(q)(list[i]) ==> list[i] in r)
  {
    FilterIsSubsequence(list, ProductMatches(Lower(Trim(query))));
  }

  /** The direction of the segment sort. */
  datatype SortDir = Asc | Desc

  /** The sort button: `s === 'asc' ? 'desc' : 'asc'`. */
  function ToggleSegSort(d: SortDir): SortDir {
    if d == Asc then Desc else Asc
  }

  lemma ToggleSegSortInvolution(d: SortDir)
    ensures ToggleSegSort(d) != d && ToggleSegSort(ToggleSegSort(d)) == d
  {
  }

  /** `rank[segment] ?? 99` for the chosen rank table. */
  function SegmentRank(dir: SortDir, seg: Option<string>): nat {
    var k := seg.GetOr("");
    if seg.None? || (k != "budget" && k != "midrange" && k != "flagship") then 99
    else if dir == Asc then (if k == "budget" then 0 else if k == "midrange" then 1 else 2)
    else (if k == "flagship" then 0 else if k == "midrange" then 1 else 2)
  }

  /** Ascending runs budget, midrange, flagship; descending reverses the
      three; every other segment, or none, comes last under both. */
  lemma SegmentRankOrders(seg: Option<string>)
    ensures SegmentRank(Asc, Some("budget")) < SegmentRank(Asc, Some("midrange")) < SegmentRank(Asc, Some("flagship"))
    ensures SegmentRank(Desc, Some("flagship")) < SegmentRank(Desc, Some("midrange")) < SegmentRank(Desc, Some("budget"))
    ensures seg.Some? && seg.value in {"budget", "midrange", "flagship"} ==>
      SegmentRank(Desc, seg) == 2 - SegmentRank(Asc, seg)
    ensures !(seg.Some? && seg.value in {"budget", "midrange", "flagship"}) ==>
      SegmentRank(Asc, seg) == 99 && SegmentRank(Desc, seg) == 99
  {
  }

  /** The comparator `ra - rb <= 0`. */
  function ProductLe(dir: SortDir): (Product, Product) -> bool {
    (a: Product, b: Product) => SegmentRank(dir, a.segment) <= SegmentRank(dir, b.segment)
  }

  lemma ProductLeTotalPreorder(dir: SortDir)
    ensures TotalPreorder(ProductLe(dir))
  {
  }

  /** The products whose segment ranks like `e`'s. */
  function SameRank(dir: SortDir, e: Product): Product -> bool {
    (p: Product) => SegmentRank(dir, p.segment) == SegmentRank(dir, e.segment)
  }

  /** Product `sorted`. */
  function SortProducts(list: seq<Product>, dir: SortDir): seq<Product> {
    SortBy(list, ProductLe(dir))
  }

  /** The sort is a permutation with ranks non-decreasing, and items of
      equal rank keep their relative order. */
  lemma SortProductsSpec(list: seq<Product>, dir: SortDir)
    ensures multiset(SortProducts(list, dir)) == multiset(list)
    ensures var r := SortProducts(list, dir);
            forall i, j :: 0 <= i < j < |r| ==> SegmentRank(dir, r[i].segment) <= SegmentRank(dir, r[j].segment)
    ensures forall e :: Filter(SortProducts(list, dir), SameRank(dir, e)) == Filter(list, SameRank(dir, e))
  {
    var le := ProductLe(dir);
    ProductLeTotalPreorder(dir);
    SortBySorted(list, le);
    forall e ensures Filter(SortProducts(list, dir), SameRank(dir, e)) == Filter(list, SameRank(dir, e)) {
      SortByStable(list, le, e);
      forall u ensures Ties(le, e)(u) == SameRank(dir, e)(u) { }
      FilterExt(SortProducts(list, dir), Ties(le, e), SameRank(dir, e));
      FilterExt(list, Ties(le, e), SameRank(dir, e));
    }
  }

  // ---------------------------------------------------------------------
  // User search and sort
  // ---------------------------------------------------------------------

  /** The role sort button's two states. */
  datatype RoleOrder = AdminFirst | UserFirst

  function ToggleRoleSort(o: RoleOrder): RoleOrder {
    if o == AdminFirst then UserFirst else AdminFirst
  }

  lemma ToggleRoleSortInvolution(o: RoleOrder)
    ensures ToggleRoleSort(o) != o && ToggleRoleSort(ToggleRoleSort(o)) == o
  {
  }

  /** `rank[role_type] ?? 99`. */
  function RoleRank(order: RoleOrder, role: Option<string>): nat {
    if role == Some("admin") then (if order == AdminFirst then 0 else 1)
    else if role == Some("user") then (if order == AdminFirst then 1 else 0)
    else 99
  }

  /** The two orders swap admin and user; any other role comes last. */
  lemma RoleRankOrders(role: Option<string>)
    ensures RoleRank(AdminFirst, Some("admin")) < RoleRank(AdminFirst, Some("user"))
    ensures RoleRank(UserFirst, Some("user")) < RoleRank(UserFirst, Some("admin"))
    ensures role in {Some("admin"), Some("user")} ==> RoleRank(UserFirst, role) == 1 - RoleRank(AdminFirst, role)
    ensures role !in {Some("admin"), Some("user")} ==> RoleRank(AdminFirst, role) == 99 && RoleRank(UserFirst, role) == 99
  {
  }

  /** The comparator of `sortedUsers` as "a may precede b": lower rank, or
      equal rank and a name that does not sort after. */
  function UserLe(order: RoleOrder): (UserRecord, UserRecord) -> bool {
    (a: UserRecord, b: UserRecord) =>
      RoleRank(order, a.role) < RoleRank(order, b.role)
      || (RoleRank(order, a.role) == RoleRank(order, b.role) && LexLe(OrEmpty(a.username), OrEmpty(b.username)))
  }

  lemma UserLeTotalPreorder(order: RoleOrder)
    ensures TotalPreorder(UserLe(order))
  {
    var le := UserLe(order);
    forall a: UserRecord, b: UserRecord ensures le(a, b) || le(b, a) {
      LexLeTotal(OrEmpty(a.username), OrEmpty(b.username));
    }
    forall a: UserRecord, b: UserRecord, c: UserRecord | le(a, b) && le(b, c) ensures le(a, c) {
      if RoleRank(order, a.role) == RoleRank(order, b.role) == RoleRank(order, c.role) {
        LexLeTransitive(OrEmpty(a.username), OrEmpty(b.username), OrEmpty(c.username));
      }
    }
  }

  /** Users with the same rank and the same name as `e`. */
  function SameRoleAndName(order: RoleOrder, e: UserRecord): UserRecord -> bool {
    (u: UserRecord) => RoleRank(order, u.role) == RoleRank(order, e.role) && OrEmpty(u.username) == OrEmpty(e.username)
  }

  /** `sortedUsers`. */
  function SortUsers(list: seq<UserRecord>, order: RoleOrder): seq<UserRecord> {
    SortBy(list, UserLe(order))
  }

  /** The user sort is a permutation ordered by rank, then by name, and
      users that compare equal keep their relative order. */
  lemma SortUsersSpec(list: seq<UserRecord>, order: RoleOrder)
    ensures multiset(SortUsers(list, order)) == multiset(list)
    ensures var r := SortUsers(list, order);
            forall i, j :: 0 <= i < j < |r| ==>
              RoleRank(order, r[i].role) < RoleRank(order, r[j].role)
              || (RoleRank(order, r[i].role) == RoleRank(order, r[j].role)
                  && LexLe(OrEmpty(r[i].username), OrEmpty(r[j].username)))
    ensures forall e :: Filter(SortUsers(list, order), SameRoleAndName(order, e)) == Filter(list, SameRoleAndName(order, e))
  {
    UserLeTotalPreorder(order);
    SortBySorted(list, UserLe(order));
    forall e ensures Filter(SortUsers(list, order), SameRoleAndName(order, e)) == Filter(list, SameRoleAndName(order, e)) {
      SortUsersStable(list, order, e);
    }
  }

  /** Two users compare as equal exactly when rank and name agree. */
  lemma UserTies(order: RoleOrder, e: UserRecord, u: UserRecord)
    ensures Ties(UserLe(order), e)(u) == SameRoleAndName(order, e)(u)
  {
    if Ties(UserLe(order), e)(u) && RoleRank(order, u.role) == RoleRank(order, e.role) {
      LexLeAntisymmetric(OrEmpty(u.username), OrEmpty(e.username));
    }
    if SameRoleAndName(order, e)(u) {
      LexLeReflexive(OrEmpty(u.username));
    }
  }

  lemma SortUsersStable(list: seq<UserRecord>, order: RoleOrder, e: UserRecord)
    ensures Filter(SortUsers(list, order), SameRoleAndName(order, e)) == Filter(list, SameRoleAndName(order, e))
  {
    var le := UserLe(order);
    UserLeTotalPreorder(order);
    SortByStable(list, le, e);
    forall u ensures Ties(le, e)(u) == SameRoleAndName(order, e)(u) {
      UserTies(order, e, u);
    }
    FilterExt(SortUsers(list, order), Ties(le, e), SameRoleAndName(order, e));
    FilterExt(list, Ties(le, e), SameRoleAndName(order, e));
  }

  /** The username, lower-cased, contains `q`; a user without one never matches. */
  function UserMatches(q: string): UserRecord -> bool {
    (u: UserRecord) => u.username.Some? && Contains(Lower(u.username.value), q)
  }

  /** User `filtered`: the query is lower-cased but not trimmed. */
  function FilterUsers(list: seq<UserRecord>, query: string): seq<UserRecord> {
    Filter(list, UserMatches(Lower(query)))
  }

  /** The user search keeps the matching users, only those, in list order;
      with an empty query it keeps exactly the users that have a username. */
  lemma FilterUsersSpec(list: seq<UserRecord>, query: string)
    ensures var r := FilterUsers(list, query);
            && IsSubsequence(r, list)
            && (forall i :: 0 <= i < |r| ==> UserMatches(Lower(query))(r[i]))
            && (forall i :: 0 <= i < |list| && UserMatches(Lower(query))(list[i]) ==> list[i] in r)
    ensures FilterUsers(list, "") == Filter(list, (u: UserRecord) => u.username.Some?)
  {
    FilterIsSubsequence(list, UserMatches(Lower(query)));
    forall i | 0 <= i < |list| && list[i].username.Some? ensures UserMatches("")(list[i]) {
      ContainsEmpty(Lower(list[i].username.value));
    }
    FilterExt(list, UserMatches(Lower("")), (u: UserRecord) => u.username.Some?);
  }

  // ---------------------------------------------------------------------
  // User forms
  // ---------------------------------------------------------------------

  /** `createAddForm()` and `createEditForm()`, which build the same record. */
  function EmptyUserForm(): UserForm {
    UserForm(Some(""), "", "user", None)
  }

  /** `u.role_type || 'user'`. */
  function RoleOrUser(role: Option<string>): (r: string)
    ensures Truthy(role) ==> r == role.value
    ensures !Truthy(role) ==> r == "user"
  {
    if Truthy(role) then role.value else "user"
  }

  /** The edit form filled from a user: the name as stored, the role or
      "user", the image or null, and an empty password. */
  function UserEditFormOf(u: UserRecord): (f: UserForm)
    ensures f.username == u.username && f.password == "" && f.image == OrNull(u.image)
    ensures f.role == RoleOrUser(u.role)
  {
    UserForm(u.username, "", RoleOrUser(u.role), OrNull(u.image))
  }

  /** One edit an input of a user form makes; the role dropdown offers
      "admin" and "user" only. */
  datatype UserEdit = SetUsername(t: string) | SetPassword(t: string) | SetRole(admin: bool)

  function ApplyUserEdit(f: UserForm, e: UserEdit): UserForm {
    match e
    case SetUsername(t) => f.(username := Some(t))
    case SetPassword(t) => f.(password := t)
    case SetRole(admin) => f.(role := if admin then "admin" else "user")
  }

  /** Each input changes its own field only; the dropdown keeps the role in
      its two values. */
  lemma ApplyUserEditFrame(f: UserForm, e: UserEdit)
    ensures var g := ApplyUserEdit(f, e);
            && g.image == f.image
            && (e.SetUsername? ==> g == f.(username := Some(e.t)))
            && (e.SetPassword? ==> g == f.(password := e.t))
            && (e.SetRole? ==> g.username == f.username && g.password == f.password && g.role in {"admin", "user"})
  {
  }

  /** The user `saveAdd` decision: trimmed username and password required,
      then the lookup, the duplicate test, and the POST of the form with the
      trimmed username. `posted` says whether the POST resolved. */
  function AddUserOutcome(form: UserForm, exist: Response<UserRecord>, posted: bool): SaveOutcome<UserForm> {
    var username := Trim(OrEmpty(form.username));
    if username == "" || form.password == "" then MissingInput
    else if exist.Threw? then RequestFailed
    else if IsDuplicate(exist, username, None) then DuplicateName
    else if !posted then RequestFailed
    else Saved(form.(username := Some(username)))
  }

  /** A user is created exactly when both fields are filled, the lookup
      succeeds, no stored name clashes and the POST resolves; the body is
      the form with the username trimmed. */
  lemma AddUserOutcomeSpec(form: UserForm, exist: Response<UserRecord>, posted: bool)
    ensures var username := Trim(OrEmpty(form.username));
            var o := AddUserOutcome(form, exist, posted);
            && (o.MissingInput? <==> username == "" || form.password == "")
            && (o.Saved? <==>
                  (username != "" && form.password != "" && !exist.Threw?
                   && !IsDuplicate(exist, username, None) && posted))
            && (o.Saved? ==> o.body == UserForm(Some(username), form.password, form.role, form.image))
            && (o.DuplicateName? <==>
                  (username != "" && form.password != "" && exist.Array?
                   && exists i :: 0 <= i < |exist.items| && Clashes(exist.items[i], username, None)))
  {
  }

  /** The user `saveEdit` decision: trimmed username required, the
      duplicate test ignores the edited record, and the PATCH carries
      username, role and image, and the password only when one was typed. */
  function EditUserOutcome(form: UserForm, editId: Id, exist: Response<UserRecord>, patched: bool): SaveOutcome<UserPatch> {
    var username := Trim(OrEmpty(form.username));
    if username == "" then MissingInput
    else if exist.Threw? then RequestFailed
    else if IsDuplicate(exist, username, Some(editId)) then DuplicateName
    else if !patched then RequestFailed
    else Saved(UserPatch(Some(username), Some(form.role), form.image, if form.password != "" then Some(form.password) else None))
  }

  /** An edit is refused exactly when the trimmed username is empty, and
      saved exactly when it is filled, the lookup succeeds, no other record
      clashes and the PATCH resolves. */
  lemma EditUserOutcomeSpec(form: UserForm, editId: Id, exist: Response<UserRecord>, patched: bool)
    ensures var username := Trim(OrEmpty(form.username));
            var o := EditUserOutcome(form, editId, exist, patched);
            && (o.MissingInput? <==> username == "")
            && (o.Saved? <==> username != "" && !exist.Threw? && !IsDuplicate(exist, username, Some(editId)) && patched)
            && (o.DuplicateName? <==>
                  (username != "" && exist.Array?
                   && exists i :: 0 <= i < |exist.items| && Clashes(exist.items[i], username, Some(editId))))
  {
    var username := Trim(OrEmpty(form.username));
    var dup := IsDuplicate(exist, username, Some(editId));
    var o := EditUserOutcome(form, editId, exist, patched);
    if username == "" {
      assert o == MissingInput;
    } else if exist.Threw? {
      assert o == RequestFailed;
    } else if dup {
      assert o == DuplicateName;
    } else {
      assert o == (if patched then Saved(o.body) else RequestFailed);
    }
  }

  /** A saved edit sends the trimmed username, the role and the image, and
      the password exactly when one was typed. */
  lemma EditUserPatchBody(form: UserForm, editId: Id, exist: Response<UserRecord>, patched: bool)
    requires EditUserOutcome(form, editId, exist, patched).Saved?
    ensures var body := EditUserOutcome(form, editId, exist, patched).body;
            && body.username == Some(Trim(OrEmpty(form.username)))
            && body.role == Some(form.role)
            && body.image == form.image
            && (body.password.Some? <==> form.password != "")
            && (form.password != "" ==> body.password == Some(form.password))
  {
  }

  /** Keeping one's own name is no duplicate: records that clash only carry
      the edited id. */
  lemma EditUserKeepsOwnName(form: UserForm, editId: Id, users: seq<UserRecord>, patched: bool)
    requires Trim(OrEmpty(form.username)) != ""
    requires forall i :: 0 <= i < |users| && NameKey(users[i]) == Lower(Trim(OrEmpty(form.username))) ==>
      IdString(users[i].id) == IdString(editId)
    ensures !EditUserOutcome(form, editId, Array(users), patched).DuplicateName?
  {
    DuplicateIgnoresOwnRecord(users, Trim(OrEmpty(form.username)), editId);
  }

  // ---------------------------------------------------------------------
  // The catalog tab
  // ---------------------------------------------------------------------

  /** Every state cell of the catalog tab; `updates` counts the
      PRODUCTS_UPDATED events it has emitted. */
  datatype ProductsState = ProductsState(
    list: seq<Product>,
    query: string,
    segSort: SortDir,
    addVisible: bool,
    addForm: ProductForm,
    editVisible: bool,
    editId: Id,
    editForm: ProductForm,
    updates: nat)

  /** The state of `AdminProducts`. */
  class AdminProducts {
    var list: seq<Product>
    var query: string
    var segSort: SortDir
    var addVisible: bool
    var addForm: ProductForm
    var editVisible: bool
    var editId: Id
    var editForm: ProductForm
    var updates: nat

    function State(): ProductsState
      reads this
    {
      ProductsState(list, query, segSort, addVisible, addForm, editVisible, editId, editForm, updates)
    }

    /** The initial state, before the first load. */
    constructor ()
      ensures State() == ProductsState([], "", Asc, false, EmptyProductForm(), false, Null, EmptyProductForm(), 0)
    {
      list := [];
      query := "";
      segSort := Asc;
      addVisible := false;
      addForm := EmptyProductForm();
      editVisible := false;
      editId := Null;
      editForm := EmptyProductForm();
      updates := 0;
    }

    /** The list as shown: searched, then sorted by segment. */
    function Shown(): seq<Product>
      reads this
    {
      SortProducts(FilterProducts(list, query), segSort)
    }

    /** `load`, with `data` what the GET of the catalog resolved to. */
    method Load(data: Response<Product>)
      modifies this
      ensures State() == old(State()).(list := Loaded(data, old(list)))
      ensures data.Threw? ==> State() == old(State())
    {
      list := Loaded(data, list);
    }

    method SetQuery(q: string)
      modifies this
      ensures State() == old(State()).(query := q)
    {
      query := q;
    }

    method FlipSegSort()
      modifies this
      ensures State() == old(State()).(segSort := ToggleSegSort(old(segSort)))
    {
      segSort := ToggleSegSort(segSort);
    }

    /** `openAdd`: a fresh form in a visible dialog. */
    method OpenAdd()
      modifies this
      ensures State() == old(State()).(addForm := EmptyProductForm(), addVisible := true)
    {
      addForm := EmptyProductForm();
      addVisible := true;
    }

    method CloseAdd()
      modifies this
      ensures State() == old(State()).(addVisible := false)
    {
      addVisible := false;
    }

    /** An input of the add form. */
    method EditAddForm(e: ProductEdit)
      modifies this
      ensures State() == old(State()).(addForm := ApplyProductEdit(old(addForm), e))
    {
      addForm := ApplyProductEdit(addForm, e);
    }

    /** `pickImageAdd`, with the picker's answer as parameters. */
    method PickImageAdd(canceled: bool, base64: Option<string>)
      modifies this
      ensures PickedImage(canceled, base64).Some? ==> State() == old(State()).(addForm := old(addForm).(image := base64))
      ensures PickedImage(canceled, base64).None? ==> State() == old(State())
    {
      var img := PickedImage(canceled, base64);
      if img.Some? {
        addForm := addForm.(image := img);
      }
    }

    /** `clearAddForm`. */
    method ClearAddForm()
      modifies this
      ensures State() == old(State()).(addForm := EmptyProductForm())
    {
      addForm := EmptyProductForm();
    }

    /** `saveAdd`: nothing is sent without a name; otherwise the form is
        POSTed, and when that resolves (`posted`) the event is emitted, the
        dialog closes, the form resets and the list reloads (`reloaded`).
        A POST that throws is not caught and leaves the state as it was. */
    method SaveAdd(posted: bool, reloaded: Response<Product>) returns (sent: Option<Request<ProductForm>>)
      modifies this
      ensures sent == if CanSaveProduct(old(addForm)) then Some(Request("/products", old(addForm))) else None
      ensures sent.None? || !posted ==> State() == old(State())
      ensures sent.Some? && posted ==>
        State() == old(State()).(list := Loaded(reloaded, old(list)), addVisible := false, addForm := EmptyProductForm(), updates := old(updates) + 1)
    {
      if !CanSaveProduct(addForm) {
        return None;
      }
      sent := Some(Request("/products", addForm));
      if posted {
        updates := updates + 1;
        addVisible := false;
        addForm := EmptyProductForm();
        list := Loaded(reloaded, list);
      }
    }

    /** `openEdit(item)`. */
    method OpenEdit(item: Product)
      modifies this
      ensures State() == old(State()).(editId := item.id, editForm := EditFormOf(item), editVisible := true)
    {
      editId := item.id;
      editForm := EditFormOf(item);
      editVisible := true;
    }

    method CloseEdit()
      modifies this
      ensures State() == old(State()).(editVisible := false)
    {
      editVisible := false;
    }

    /** An input of the edit form. */
    method EditEditForm(e: ProductEdit)
      modifies this
      ensures State() == old(State()).(editForm := ApplyProductEdit(old(editForm), e))
    {
      editForm := ApplyProductEdit(editForm, e);
    }

    /** `pickImageEdit`. */
    method PickImageEdit(canceled: bool, base64: Option<string>)
      modifies this
      ensures PickedImage(canceled, base64).Some? ==> State() == old(State()).(editForm := old(editForm).(image := base64))
      ensures PickedImage(canceled, base64).None? ==> State() == old(State())
    {
      var img := PickedImage(canceled, base64);
      if img.Some? {
        editForm := editForm.(image := img);
      }
    }

    /** `saveEdit`: as `SaveAdd`, PATCHing the edited item's path and also
        clearing the edited id. */
    method SaveEdit(patched: bool, reloaded: Response<Product>) returns (sent: Option<Request<ProductForm>>)
      modifies this
      ensures sent == if CanSaveProduct(old(editForm)) then Some(Request("/products/" + IdString(old(editId)), old(editForm))) else None
      ensures sent.None? || !patched ==> State() == old(State())
      ensures sent.Some? && patched ==>
        State() == old(State()).(list := Loaded(reloaded, old(list)), editVisible := false, editId := Null,
                                 editForm := EmptyProductForm(), updates := old(updates) + 1)
    {
      if !CanSaveProduct(editForm) {
        return None;
      }
      sent := Some(Request("/products/" + IdString(editId), editForm));
      if patched {
        updates := updates + 1;
        editVisible := false;
        editId := Null;
        editForm := EmptyProductForm();
        list := Loaded(reloaded, list);
      }
    }

    /** `del(item)`: only a confirmed deletion sends the DELETE; once it
        resolves the event is emitted and the list reloads. */
    method Delete(item: Product, confirmed: bool, deleted: bool, reloaded: Response<Product>) returns (path: Option<string>)
      modifies this
      ensures path == if confirmed then Some("/products/" + IdString(item.id)) else None
      ensures path.Some? && deleted ==> State() == old(State()).(list := Loaded(reloaded, old(list)), updates := old(updates) + 1)
      ensures path.None? || !deleted ==> State() == old(State())
    {
      if !confirmed {
        return None;
      }
      path := Some("/products/" + IdString(item.id));
      if deleted {
        updates := updates + 1;
        list := Loaded(reloaded, list);
      }
    }
  }

  // ---------------------------------------------------------------------
  // The users tab
  // ---------------------------------------------------------------------

  /** Every state cell of the users tab. */
  datatype UsersState = UsersState(
    list: seq<UserRecord>,
    query: string,
    roleSort: RoleOrder,
    addVisible: bool,
    addForm: UserForm,
    editVisible: bool,
    editId: Id,
    editForm: UserForm)

  /** The state of `AdminUsers`. */
  class AdminUsers {
    var list: seq<UserRecord>
    var query: string
    var roleSort: RoleOrder
    var addVisible: bool
    var addForm: UserForm
    var editVisible: bool
    var editId: Id
    var editForm: UserForm

    function State(): UsersState
      reads this
    {
      UsersState(list, query, roleSort, addVisible, addForm, editVisible, editId, editForm)
    }

    /** The initial state, before the first load. */
    constructor ()
      ensures State() == UsersState([], "", AdminFirst, false, EmptyUserForm(), false, Null, EmptyUserForm())
    {
      list := [];
      query := "";
      roleSort := AdminFirst;
      addVisible := false;
      addForm := EmptyUserForm();
      editVisible := false;
      editId := Null;
      editForm := EmptyUserForm();
    }

    /** The list as shown: searched, then sorted by role and name. */
    function Shown(): seq<UserRecord>
      reads this
    {
      SortUsers(FilterUsers(list, query), roleSort)
    }

    /** `load`, with `data` what the GET of the users resolved to. */
    method Load(data: Response<UserRecord>)
      modifies this
      ensures State() == old(State()).(list := Loaded(data, old(list)))
      ensures data.Threw? ==> State() == old(State())
    {
      list := Loaded(data, list);
    }

    method SetQuery(q: string)
      modifies this
      ensures State() == old(State()).(query := q)
    {
      query := q;
    }

    method FlipRoleSort()
      modifies this
      ensures State() == old(State()).(roleSort := ToggleRoleSort(old(roleSort)))
    {
      roleSort := ToggleRoleSort(roleSort);
    }

    method OpenAdd()
      modifies this
      ensures State() == old(State()).(addForm := EmptyUserForm(), addVisible := true)
    {
      addForm := EmptyUserForm();
      addVisible := true;
    }

    method CloseAdd()
      modifies this
      ensures State() == old(State()).(addVisible := false)
    {
      addVisible := false;
    }

    method EditAddForm(e: UserEdit)
      modifies this
      ensures State() == old(State()).(addForm := ApplyUserEdit(old(addForm), e))
    {
      addForm := ApplyUserEdit(addForm, e);
    }

    /** `pickProfileAdd`. */
    method PickImageAdd(canceled: bool, base64: Option<string>)
      modifies this
      ensures PickedImage(canceled, base64).Some? ==> State() == old(State()).(addForm := old(addForm).(image := base64))
      ensures PickedImage(canceled, base64).None? ==> State() == old(State())
    {
      var img := PickedImage(canceled, base64);
      if img.Some? {
        addForm := addForm.(image := img);
      }
    }

    /** `clearAdd`. */
    method ClearAdd()
      modifies this
      ensures State() == old(State()).(addForm := EmptyUserForm())
    {
      addForm := EmptyUserForm();
    }

    /** The end of a saved user: the dialog closes, the form resets and
        the list reloads. */
    method FinishAdd(reloaded: Response<UserRecord>)
      modifies this
      ensures State() == old(State()).(list := Loaded(reloaded, old(list)), addVisible := false, addForm := EmptyUserForm())
    {
      addVisible := false;
      addForm := EmptyUserForm();
      list := Loaded(reloaded, list);
    }

    /** `saveAdd`, given the lookup's response, whether the POST resolved,
        and the reloaded list: once the checks pass the form is POSTed to
        "/users" (`sent`); only a saved user closes the dialog, resets the
        form and reloads. */
    method SaveAdd(exist: Response<UserRecord>, posted: bool, reloaded: Response<UserRecord>)
      returns (o: SaveOutcome<UserForm>, sent: Option<Request<UserForm>>)
      modifies this
      ensures o == AddUserOutcome(old(addForm), exist, posted)
      ensures var v := AddUserOutcome(old(addForm), exist, true);
              sent == if v.Saved? then Some(Request("/users", v.body)) else None
      ensures o.Saved? ==> State() == old(State()).(list := Loaded(reloaded, old(list)), addVisible := false, addForm := EmptyUserForm())
      ensures !o.Saved? ==> State() == old(State())
    {
      var form := addForm;
      var username := Trim(OrEmpty(form.username));
      if username == "" || form.password == "" {
        return MissingInput, None;
      }
      if exist.Threw? {
        return RequestFailed, None;
      }
      var duplicated := IsDuplicate(exist, username, None);
      if duplicated {
        return DuplicateName, None;
      }
      var body := form.(username := Some(username));
      sent := Some(Request("/users", body));
      if !posted {
        return RequestFailed, sent;
      }
      o := Saved(body);
      FinishAdd(reloaded);
    }

    /** `openEdit(u)`. */
    method OpenEdit(u: UserRecord)
      modifies this
      ensures State() == old(State()).(editId := u.id, editForm := UserEditFormOf(u), editVisible := true)
    {
      editId := u.id;
      editForm := UserEditFormOf(u);
      editVisible := true;
    }

    method CloseEdit()
      modifies this
      ensures State() == old(State()).(editVisible := false)
    {
      editVisible := false;
    }

    method EditEditForm(e: UserEdit)
      modifies this
      ensures State() == old(State()).(editForm := ApplyUserEdit(old(editForm), e))
    {
      editForm := ApplyUserEdit(editForm, e);
    }

    /** `pickProfileEdit`. */
    method PickImageEdit(canceled: bool, base64: Option<string>)
      modifies this
      ensures PickedImage(canceled, base64).Some? ==> State() == old(State()).(editForm := old(editForm).(image := base64))
      ensures PickedImage(canceled, base64).None? ==> State() == old(State())
    {
      var img := PickedImage(canceled, base64);
      if img.Some? {
        editForm := editForm.(image := img);
      }
    }

    /** The end of a saved edit: the dialog closes, the edited id is
        cleared, the form resets and the list reloads. */
    method FinishEdit(reloaded: Response<UserRecord>)
      modifies this
      ensures State() == old(State()).(list := Loaded(reloaded, old(list)), editVisible := false, editId := Null, editForm := EmptyUserForm())
    {
      editVisible := false;
      editId := Null;
      editForm := EmptyUserForm();
      list := Loaded(reloaded, list);
    }

    /** `saveEdit`: the payload is assembled field by field, the password
        added only when one was typed, and PATCHed to the edited user's path
        (`sent`); only a saved edit closes the dialog, clears the edited id,
        resets the form and reloads. */
    method SaveEdit(exist: Response<UserRecord>, patched: bool, reloaded: Response<UserRecord>)
      returns (o: SaveOutcome<UserPatch>, sent: Option<Request<UserPatch>>)
      modifies this
      ensures o == EditUserOutcome(old(editForm), old(editId), exist, patched)
      ensures var v := EditUserOutcome(old(editForm), old(editId), exist, true);
              sent == if v.Saved? then Some(Request("/users/" + IdString(old(editId)), v.body)) else None
      ensures o.Saved? ==>
        State() == old(State()).(list := Loaded(reloaded, old(list)), editVisible := false, editId := Null, editForm := EmptyUserForm())
      ensures !o.Saved? ==> State() == old(State())
    {
      var form := editForm;
      var id := editId;
      var username := Trim(OrEmpty(form.username));
      if username == "" {
        return MissingInput, None;
      }
      if exist.Threw? {
        return RequestFailed, None;
      }
      var duplicated := IsDuplicate(exist, username, Some(id));
      if duplicated {
        return DuplicateName, None;
      }
      var payload := UserPatch(Some(username), Some(form.role), form.image, None);
      if form.password != "" {
        payload := payload.(password := Some(form.password));
      }
      sent := Some(Request("/users/" + IdString(id), payload));
      if !patched {
        return RequestFailed, sent;
      }
      o := Saved(payload);
      FinishEdit(reloaded);
    }

    /** `delUser(user)`: a confirmed DELETE, then a reload once it resolves. */
    method DeleteUser(user: UserRecord, confirmed: bool, deleted: bool, reloaded: Response<UserRecord>)
      returns (path: Option<string>)
      modifies this
      ensures path == if confirmed then Some("/users/" + IdString(user.id)) else None
      ensures path.Some? && deleted ==> State() == old(State()).(list := Loaded(reloaded, old(list)))
      ensures path.None? || !deleted ==> State() == old(State())
    {
      if !confirmed {
        return None;
      }
      path := Some("/users/" + IdString(user.id));
      if deleted {
        list := Loaded(reloaded, list);
      }
    }
  }
}
