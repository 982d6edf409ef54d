/** The project list of the dashboard (app/dashboard/page.tsx): the status
    badge, the edit/create form and its validation, the list updates after
    the API answers, and the filtered and sorted view. Each handler is a
    function from page state to page state; the awaited API call becomes an
    `Outcome` parameter. */
module Dashboard {
  import opened Wrappers
  import opened Text

  /** A project as the page holds it. `createdAt` stands for
      `new Date(created_at).getTime()`. */
  datatype Project = Project(
    id: string, name: string, description: string, status: string,
    createdAt: int, userId: string)

  datatype FormData = FormData(name: string, description: string, status: string)

  /** `FormErrors`: `None` is an absent (or `undefined`) message. */
  datatype FormErrors = FormErrors(name: Option<string>, description: Option<string>, status: Option<string>)

  datatype Field = NameField | DescriptionField | StatusField

  const NoErrors := FormErrors(None, None, None)

  /** The form as the create dialog starts and is reset to. */
  const EmptyForm := FormData("", "", "active")

  // ---- status badge --------------------------------------------------------

  const GreenBadge := "bg-green-100 text-green-800"
  const BlueBadge := "bg-blue-100 text-blue-800"
  const GrayBadge := "bg-gray-100 text-gray-800"

  /** `getStatusColor`: the badge classes for a status, case-insensitively. */
  function StatusColor(status: string): (c: string)
    ensures c == GreenBadge <==> Lower(status) == "active"
    ensures c == BlueBadge <==> Lower(status) == "completed"
    ensures c == GrayBadge <==> Lower(status) != "active" && Lower(status) != "completed"
  {
    BadgesDistinct();
    var s := Lower(status);
    if s == "active" then GreenBadge
    else if s == "completed" then BlueBadge
    else if s == "archived" then GrayBadge
    else GrayBadge
  }

  lemma BadgesDistinct()
    ensures GreenBadge != BlueBadge && GreenBadge != GrayBadge && BlueBadge != GrayBadge
  {
    assert GreenBadge[5] != BlueBadge[5] && GreenBadge[5] != GrayBadge[5] && BlueBadge[5] != GrayBadge[5];
  }

  /** Statuses that differ only in letter case get the same badge, and
      lower-casing a status first changes nothing. */
  lemma StatusColorIgnoresCase(s: string, t: string)
    requires Lower(s) == Lower(t)
    ensures StatusColor(s) == StatusColor(t)
    ensures StatusColor(Lower(s)) == StatusColor(s)
  {
    LowerIdempotent(s);
  }

  // ---- form validation -----------------------------------------------------

  /** Emptiness after JavaScript's `trim()`. */
  predicate Blank(s: string) {
    Strip(s, IsJsSpace) == ""
  }

  datatype Validation = Validation(valid: bool, errors: FormErrors)

  /** `validateForm`: the verdict and the errors it records. */
  function Validate(f: FormData): (v: Validation)
    ensures v.valid <==> !Blank(f.name) && !Blank(f.description) && f.status != ""
    ensures v.errors.name.Some? <==> Blank(f.name)
    ensures v.errors.description.Some? <==> Blank(f.description)
    ensures v.errors.status.Some? <==> f.status == ""
    ensures v.valid <==> v.errors == NoErrors
  {
    var name := if Blank(f.name) then Some("Name is required") else None;
    var description := if Blank(f.description) then Some("Description is required") else None;
    var status := if f.status == "" then Some("Status is required") else None;
    Validation(name.None? && description.None? && status.None?, FormErrors(name, description, status))
  }

  /** A form passes exactly when name and description each hold a
      character that `trim()` keeps and a status is chosen. */
  lemma ValidIffNotAllSpace(f: FormData)
    ensures Validate(f).valid <==>
      (exists i :: 0 <= i < |f.name| && !IsJsSpace(f.name[i]))
      && (exists i :: 0 <= i < |f.description| && !IsJsSpace(f.description[i]))
      && f.status != ""
  {
    StripEmptyIff(f.name, IsJsSpace);
    StripEmptyIff(f.description, IsJsSpace);
  }

  // ---- form edits ----------------------------------------------------------

  function FieldValue(f: FormData, field: Field): string {
    match field
    case NameField => f.name
    case DescriptionField => f.description
    case StatusField => f.status
  }

  function ErrorOf(e: FormErrors, field: Field): Option<string> {
    match field
    case NameField => e.name
    case DescriptionField => e.description
    case StatusField => e.status
  }

  /** A message is truthy when present and non-empty. */
  predicate Truthy(m: Option<string>) {
    m.Some? && m.value != ""
  }

  function SetField(f: FormData, field: Field, value: string): FormData {
    match field
    case NameField => f.(name := value)
    case DescriptionField => f.(description := value)
    case StatusField => f.(status := value)
  }

  function ClearError(e: FormErrors, field: Field): FormErrors {
    match field
    case NameField => e.(name := None)
    case DescriptionField => e.(description := None)
    case StatusField => e.(status := None)
  }

  /** `handleFormChange`: the field takes the value; its error is cleared
      when it was showing one, and no other field or error moves. */
  function FormChange(f: FormData, e: FormErrors, field: Field, value: string): (r: (FormData, FormErrors))
    ensures FieldValue(r.0, field) == value
    ensures forall g :: g != field ==> FieldValue(r.0, g) == FieldValue(f, g)
    ensures ErrorOf(r.1, field) == if Truthy(ErrorOf(e, field)) then None else ErrorOf(e, field)
    ensures forall g :: g != field ==> ErrorOf(r.1, g) == ErrorOf(e, g)
  {
    (SetField(f, field, value), if Truthy(ErrorOf(e, field)) then ClearError(e, field) else e)
  }

  /** After an edit the edited field shows no error; and typing the same
      value twice is typing it once. */
  lemma FormChangeSettles(f: FormData, e: FormErrors, field: Field, value: string)
    ensures !Truthy(ErrorOf(FormChange(f, e, field, value).1, field))
    ensures var r := FormChange(f, e, field, value);
      FormChange(r.0, r.1, field, value) == r
  {
  }

  // ---- list updates ----------------------------------------------------------

  /** `prev.map(p => p.id === id ? q : p)`. */
  function ReplaceById(ps: seq<Project>, id: string, q: Project): (r: seq<Project>)
    ensures |r| == |ps|
    ensures forall i :: 0 <= i < |ps| ==> r[i] == if ps[i].id == id then q else ps[i]
  {
    seq(|ps|, i requires 0 <= i < |ps| => if ps[i].id == id then q else ps[i])
  }

  /** Replacing the entries of an id by a project with that id and then
      removing the id is removing it straight away: a replacement touches
      nothing else. */
  lemma {:induction false} ReplaceThenRemove(ps: seq<Project>, id: string, q: Project)
    requires q.id == id
    ensures RemoveById(ReplaceById(ps, id, q), id) == RemoveById(ps, id)
  {
    if |ps| > 0 {
      var r := ReplaceById(ps, id, q);
      assert r[1..] == ReplaceById(ps[1..], id, q);
      assert r[0].id == id <==> ps[0].id == id;
      ReplaceThenRemove(ps[1..], id, q);
      RemoveByIdCons(r, id);
      RemoveByIdCons(ps, id);
    }
  }

  /** `prev.filter(p => p.id !== id)`. */
  function RemoveById(ps: seq<Project>, id: string): (r: seq<Project>)
    ensures |r| <= |ps|
  {
    if |ps| == 0 then []
    else if ps[0].id == id then RemoveById(ps[1..], id)
    else [ps[0]] + RemoveById(ps[1..], id)
  }

  lemma RemoveByIdCons(ps: seq<Project>, id: string)
    requires |ps| > 0
    ensures RemoveById(ps, id) == (if ps[0].id == id then [] else [ps[0]]) + RemoveById(ps[1..], id)
  {
  }

  /** Removal works piecewise, so the survivors keep their relative order. */
  lemma {:induction false} RemoveByIdAppend(a: seq<Project>, b: seq<Project>, id: string)
    ensures RemoveById(a + b, id) == RemoveById(a, id) + RemoveById(b, id)
  {
    if |a| == 0 {
      assert a + b == b;
    } else {
      var ab := a + b;
      assert ab[0] == a[0] && ab[1..] == a[1..] + b;
      RemoveByIdAppend(a[1..], b, id);
      RemoveByIdCons(a, id);
      RemoveByIdCons(ab, id);
    }
  }

  /** Every project whose id differs is kept as often as it occurred, and
      none with the id survives. */
  lemma {:induction false} RemoveByIdCounts(ps: seq<Project>, id: string, q: Project)
    ensures multiset(RemoveById(ps, id))[q] == if q.id == id then 0 else multiset(ps)[q]
  {
    if |ps| > 0 {
      RemoveByIdCounts(ps[1..], id, q);
      assert ps == [ps[0]] + ps[1..];
    }
  }

  /** The page state the handlers touch. */
  datatype Page = Page(
    projects: seq<Project>, form: FormData, errors: FormErrors,
    editing: Option<Project>, toDelete: Option<Project>)

  /** An awaited API call: it resolves with a value or throws. */
  datatype Outcome<T> = Resolved(value: T) | Threw

  /** `handleSave`. Without a project being edited nothing happens; a
      failing form only shows its errors; a thrown update leaves the list. */
  function Save(p: Page, updated: Outcome<Project>): (r: Page)
    ensures p.editing.None? ==> r == p
    ensures p.editing.Some? && !Validate(p.form).valid ==>
      r == p.(errors := Validate(p.form).errors)
    ensures p.editing.Some? && Validate(p.form).valid && updated.Resolved? ==>
      r.projects == ReplaceById(p.projects, p.editing.value.id, updated.value)
      && r.editing.None? && r.errors == NoErrors
    ensures updated.Threw? ==> r.projects == p.projects
  {
    if p.editing.None? then p
    else
      var v := Validate(p.form);
      if !v.valid then p.(errors := v.errors)
      else match updated
        case Threw => p.(errors := NoErrors)
        case Resolved(u) =>
          p.(projects := ReplaceById(p.projects, p.editing.value.id, u), editing := None, errors := NoErrors)
  }

  /** A successful save replaces exactly the entries carrying the edited id:
      the length and the order of the list are kept, every entry with the
      id is the server's project, and when that project keeps the id the
      list without the id is the list as it was. */
  lemma SaveReplacesOnlyEdited(p: Page, u: Project, i: int)
    requires p.editing.Some? && Validate(p.form).valid
    requires 0 <= i < |p.projects|
    ensures |Save(p, Resolved(u)).projects| == |p.projects|
    ensures Save(p, Resolved(u)).projects[i] == if p.projects[i].id == p.editing.value.id then u else p.projects[i]
    ensures var r := Save(p, Resolved(u)).projects;
      forall j :: 0 <= j < |r| && r[j].id == p.editing.value.id ==> r[j] == u
    ensures u.id == p.editing.value.id ==>
      RemoveById(Save(p, Resolved(u)).projects, u.id) == RemoveById(p.projects, u.id)
  {
    if u.id == p.editing.value.id {
      ReplaceThenRemove(p.projects, u.id, u);
    }
  }

  /** `handleCreateProject`: on success the new project goes last and the
      form is reset. */
  function Create(p: Page, created: Outcome<Project>): (r: Page)
    ensures !Validate(p.form).valid ==> r == p.(errors := Validate(p.form).errors)
    ensures Validate(p.form).valid && created.Resolved? ==>
      r.projects == p.projects + [created.value] && r.form == EmptyForm && r.errors == NoErrors
    ensures created.Threw? ==> r.projects == p.projects && r.form == p.form
  {
    var v := Validate(p.form);
    if !v.valid then p.(errors := v.errors)
    else match created
      case Threw => p.(errors := NoErrors)
      case Resolved(n) => p.(projects := p.projects + [n], form := EmptyForm, errors := NoErrors)
  }

  /** The reset form is itself one that fails validation only on its
      blank name and description, so creating twice in a row needs new input. */
  lemma CreateTwiceNeedsInput(p: Page, n: Project, m: Outcome<Project>)
    requires Validate(p.form).valid
    ensures var r := Create(p, Resolved(n));
      Create(r, m).projects == r.projects
      && Create(r, m).errors == FormErrors(Some("Name is required"), Some("Description is required"), None)
  {
    assert Strip("", IsJsSpace) == "";
  }

  /** The delete control is shown only on projects of the signed-in user;
      without a user no control is shown. */
  function CanDelete(q: Project, user: Option<string>): (b: bool)
    ensures b ==> user.Some? && q.userId == user.value
  {
    user.Some? && q.userId == user.value
  }

  /** `handleDeleteClick`, reachable through the control only. */
  function ClickDelete(p: Page, q: Project, user: Option<string>): (r: Page)
    ensures r.toDelete.Some? && r.toDelete != p.toDelete ==> r.toDelete == Some(q) && CanDelete(q, user)
    ensures r.projects == p.projects
  {
    if CanDelete(q, user) then p.(toDelete := Some(q)) else p
  }

  /** `handleDeleteConfirm`. */
  function DeleteConfirm(p: Page, deleted: Outcome<()>): (r: Page)
    ensures p.toDelete.None? || deleted.Threw? ==> r == p
    ensures p.toDelete.Some? && deleted.Resolved? ==>
      r.projects == RemoveById(p.projects, p.toDelete.value.id) && r.toDelete.None?
  {
    if p.toDelete.None? then p
    else match deleted
      case Threw => p
      case Resolved(_) => p.(projects := RemoveById(p.projects, p.toDelete.value.id), toDelete := None)
  }

  /** Starting with nothing pending, clicking a project's control and
      confirming removes only entries sharing that project's id, and only
      when the signed-in user owns it. */
  lemma DeleteOnlyOwn(p: Page, q: Project, user: Option<string>, x: Project)
    requires p.toDelete.None?
    requires multiset(DeleteConfirm(ClickDelete(p, q, user), Resolved(())).projects)[x] < multiset(p.projects)[x]
    ensures x.id == q.id && user.Some? && q.userId == user.value
  {
    var r := ClickDelete(p, q, user);
    if CanDelete(q, user) {
      RemoveByIdCounts(p.projects, q.id, x);
    }
  }

  // ---- filtered and sorted view ---------------------------------------------

  /** The search and status filter of one project. */
  predicate Matches(q: Project, query: string, statusFilter: string) {
    (Includes(Lower(q.name), Lower(query)) || Includes(Lower(q.description), Lower(query)))
    && (statusFilter == "all" || q.status == statusFilter)
  }

  function Filter(ps: seq<Project>, query: string, statusFilter: string): (r: seq<Project>)
    ensures |r| <= |ps|
    ensures forall i :: 0 <= i < |r| ==> Matches(r[i], query, statusFilter)
  {
    if |ps| == 0 then []
    else
      var rest := Filter(ps[1..], query, statusFilter);
      if Matches(ps[0], query, statusFilter) then [ps[0]] + rest else rest
  }

  /** Every matching project is kept as often as it occurs, and no other. */
  lemma {:induction false} FilterCounts(ps: seq<Project>, query: string, statusFilter: string, x: Project)
    ensures multiset(Filter(ps, query, statusFilter))[x] ==
      if Matches(x, query, statusFilter) then multiset(ps)[x] else 0
  {
    if |ps| > 0 {
      FilterCounts(ps[1..], query, statusFilter, x);
      assert ps == [ps[0]] + ps[1..];
    }
  }

  lemma FilterCons(ps: seq<Project>, query: string, statusFilter: string)
    requires |ps| > 0
    ensures Filter(ps, query, statusFilter) ==
      (if Matches(ps[0], query, statusFilter) then [ps[0]] else []) + Filter(ps[1..], query, statusFilter)
  {
  }

  /** Filtering works piecewise: kept projects stay in their original order. */
  lemma {:induction false} FilterAppend(a: seq<Project>, b: seq<Project>, query: string, statusFilter: string)
    ensures Filter(a + b, query, statusFilter) == Filter(a, query, statusFilter) + Filter(b, query, statusFilter)
  {
    if |a| == 0 {
      assert a + b == b;
    } else {
      var ab := a + b;
      assert ab[0] == a[0] && ab[1..] == a[1..] + b;
      FilterAppend(a[1..], b, query, statusFilter);
      FilterCons(a, query, statusFilter);
      FilterCons(ab, query, statusFilter);
    }
  }

  lemma IncludesEmpty(s: string)
    ensures Includes(s, "")
  {
    assert StartsWith(s, "");
  }

  /** An empty query with the filter "all" keeps every project. */
  lemma {:induction false} EmptyQueryKeepsAll(ps: seq<Project>)
    ensures Filter(ps, "", "all") == ps
  {
    if |ps| > 0 {
      IncludesEmpty(Lower(ps[0].name));
      assert Lower("") == "";
      EmptyQueryKeepsAll(ps[1..]);
      assert ps == [ps[0]] + ps[1..];
    }
  }

  /** The search ignores letter case in the query. */
  lemma QueryIgnoresCase(q: Project, query: string, statusFilter: string)
    ensures Matches(q, query, statusFilter) <==> Matches(q, Lower(query), statusFilter)
  {
    LowerIdempotent(query);
  }

  datatype SortKey = Newest | Oldest | NameAsc | NameDesc

  /** A comparator read as "a may stay before b" (the comparator's value
      is at most zero). */
  type Order = (Project, Project) -> bool

  /** The comparators of the four sort keys; `nameLe` is `localeCompare(a, b) <= 0`. */
  function Comparator(k: SortKey, nameLe: (string, string) -> bool): Order {
    match k
    case Newest => (a: Project, b: Project) => b.createdAt - a.createdAt <= 0
    case Oldest => (a: Project, b: Project) => a.createdAt - b.createdAt <= 0
    case NameAsc => (a: Project, b: Project) => nameLe(a.name, b.name)
    case NameDesc => (a: Project, b: Project) => nameLe(b.name, a.name)
  }

  /** The two name orders, and the two date orders, are mutual reverses. */
  lemma ComparatorsReversed(nameLe: (string, string) -> bool, a: Project, b: Project)
    ensures Comparator(NameDesc, nameLe)(a, b) == Comparator(NameAsc, nameLe)(b, a)
    ensures Comparator(Newest, nameLe)(a, b) == Comparator(Oldest, nameLe)(b, a)
  {
  }

  ghost predicate TotalPreorder<T(!new)>(le: (T, T) -> bool) {
    (forall a, b :: le(a, b) || le(b, a))
    && (forall a, b, c :: le(a, b) && le(b, c) ==> le(a, c))
  }

  lemma ComparatorIsTotalPreorder(k: SortKey, nameLe: (string, string) -> bool)
    requires TotalPreorder(nameLe)
    ensures TotalPreorder(Comparator(k, nameLe))
  {
    var le := Comparator(k, nameLe);
    forall a: Project, b: Project
      ensures le(a, b) || le(b, a)
    {
      if k.NameAsc? || k.NameDesc? {
        assert nameLe(a.name, b.name) || nameLe(b.name, a.name);
      }
    }
    forall a: Project, b: Project, c: Project | le(a, b) && le(b, c)
      ensures le(a, c)
    {
      if k.NameAsc? {
        assert nameLe(a.name, b.name) && nameLe(b.name, c.name);
      } else if k.NameDesc? {
        assert nameLe(c.name, b.name) && nameLe(b.name, a.name);
      }
    }
  }

  ghost predicate Sorted(s: seq<Project>, le: Order) {
    forall i, j :: 0 <= i < j < |s| ==> le(s[i], s[j])
  }

  /** Puts `x` in front of the first element it may precede. */
  function Insert(x: Project, s: seq<Project>, le: Order): (r: seq<Project>)
    ensures multiset(r) == multiset(s) + multiset{x}
  {
    if |s| == 0 then [x]
    else if le(x, s[0]) then [x] + s
    else
      assert s == [s[0]] + s[1..];
      [s[0]] + Insert(x, s[1..], le)
  }

  /** A stable insertion sort: `Array.prototype.sort` is stable, and this
      sort keeps equal elements in their input order too. */
  function Sort(s: seq<Project>, le: Order): (r: seq<Project>)
    ensures multiset(r) == multiset(s)
  {
    if |s| == 0 then []
    else
      assert s == [s[0]] + s[1..];
      Insert(s[0], Sort(s[1..], le), le)
  }

  lemma {:induction false} InsertSorted(x: Project, s: seq<Project>, le: Order)
    requires TotalPreorder(le)
    requires Sorted(s, le)
    ensures Sorted(Insert(x, s, le), le)
  {
    if |s| > 0 && !le(x, s[0]) {
      InsertSorted(x, s[1..], le);
      var t := Insert(x, s[1..], le);
      forall j | 0 <= j < |t|
        ensures le(s[0], t[j])
      {
        assert t[j] in multiset(t);
        if t[j] != x {
          assert t[j] in multiset(s[1..]);
          var m :| 0 <= m < |s[1..]| && s[1..][m] == t[j];
          assert s[1 + m] == t[j];
        }
      }
    }
  }

  lemma {:induction false} SortSorted(s: seq<Project>, le: Order)
    requires TotalPreorder(le)
    ensures Sorted(Sort(s, le), le)
  {
    if |s| > 0 {
      SortSorted(s[1..], le);
      InsertSorted(s[0], Sort(s[1..], le), le);
    }
  }

  /** `filteredAndSortedProjects`. */
  function View(ps: seq<Project>, query: string, statusFilter: string, k: SortKey,
                nameLe: (string, string) -> bool): (r: seq<Project>)
    ensures multiset(r) == multiset(Filter(ps, query, statusFilter))
  {
    Sort(Filter(ps, query, statusFilter), Comparator(k, nameLe))
  }

  /** The view holds exactly the matching projects, each as often as in the
      list, ordered by the chosen key. */
  lemma ViewSpec(ps: seq<Project>, query: string, statusFilter: string, k: SortKey,
                 nameLe: (string, string) -> bool, x: Project)
    requires TotalPreorder(nameLe)
    ensures Sorted(View(ps, query, statusFilter, k, nameLe), Comparator(k, nameLe))
    ensures multiset(View(ps, query, statusFilter, k, nameLe))[x] ==
      if Matches(x, query, statusFilter) then multiset(ps)[x] else 0
  {
    ComparatorIsTotalPreorder(k, nameLe);
    SortSorted(Filter(ps, query, statusFilter), Comparator(k, nameLe));
    FilterCounts(ps, query, statusFilter, x);
  }
}
