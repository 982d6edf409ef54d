/** The projects API (backend/app/routers/projects.py) over an abstract
    store: the table is the sequence of its rows in scan order, ids are
    assigned by the database and passed in, and each route returns the new
    store together with its answer or its HTTP error. */
module ProjectsRouter {
  import opened Wrappers

  /** A row of the `projects` table; timestamps are opaque integers. */
  datatype Project = Project(
    id: int, name: string, description: Option<string>, status: string,
    createdAt: int, updatedAt: int, userId: string)

  type Store = seq<Project>

  datatype HttpError = HttpError(code: int, detail: string)

  /** What a route leaves behind: the store after the call and its answer. */
  datatype Reply<T> = Reply(store: Store, answer: Result<T, HttpError>)

  const NotFound := HttpError(404, "Project not found")
  const Forbidden := HttpError(403, "Not enough permissions to delete this project")

  /** The primary key holds: no two rows share an id. */
  ghost predicate UniqueIds(s: Store) {
    forall i, j :: 0 <= i < j < |s| ==> s[i].id != s[j].id
  }

  ghost predicate HasId(s: Store, id: int) {
    exists i :: 0 <= i < |s| && s[i].id == id
  }

  /** The position of the first row with the id, if any. */
  function Find(s: Store, id: int): (r: Option<nat>)
    ensures r.Some? ==> r.value < |s| && s[r.value].id == id
    ensures r.Some? ==> forall j :: 0 <= j < r.value ==> s[j].id != id
    ensures r.None? <==> !HasId(s, id)
  {
    if |s| == 0 then None
    else if s[0].id == id then Some(0)
    else match Find(s[1..], id)
      case None => None
      case Some(k) => Some(k + 1)
  }

  // ---- GET / -------------------------------------------------------------------

  /** `WHERE user_id = :user_id`. */
  function OwnedBy(s: Store, userId: string): (r: Store)
    ensures |r| <= |s|
    ensures forall i :: 0 <= i < |r| ==> r[i].userId == userId
  {
    if |s| == 0 then []
    else if s[0].userId == userId then [s[0]] + OwnedBy(s[1..], userId)
    else OwnedBy(s[1..], userId)
  }

  /** Every row of the user is selected as often as it occurs, and no other. */
  lemma {:induction false} OwnedByCounts(s: Store, userId: string, p: Project)
    ensures multiset(OwnedBy(s, userId))[p] == if p.userId == userId then multiset(s)[p] else 0
  {
    if |s| > 0 {
      OwnedByCounts(s[1..], userId, p);
      assert s == [s[0]] + s[1..];
    }
  }

  function Min(a: int, b: int): int {
    if a <= b then a else b
  }

  /** `OFFSET skip LIMIT limit`. */
  function Paginate(s: Store, skip: nat, limit: nat): (r: Store)
    ensures |r| == Min(limit, if skip <= |s| then |s| - skip else 0)
    ensures forall i :: 0 <= i < |r| ==> skip + i < |s| && r[i] == s[skip + i]
  {
    var a := Min(skip, |s|);
    s[a..Min(a + limit, |s|)]
  }

  /** Consecutive pages put together are the page covering both. */
  lemma PagesConcatenate(s: Store, skip: nat, n: nat, m: nat)
    ensures Paginate(s, skip, n) + Paginate(s, skip + n, m) == Paginate(s, skip, n + m)
  {
  }

  /** `read_projects`: a non-empty `user_id` restricts the rows to that
      user's, then the window is taken. */
  function ReadProjects(s: Store, skip: nat, limit: nat, userId: Option<string>): (r: Store)
    ensures |r| <= limit
    ensures userId.Some? && userId.value != "" ==> forall i :: 0 <= i < |r| ==> r[i].userId == userId.value
    ensures userId.Some? && userId.value != "" ==> r == Paginate(OwnedBy(s, userId.value), skip, limit)
  {
    var rows := if userId.Some? && userId.value != "" then OwnedBy(s, userId.value) else s;
    Paginate(rows, skip, limit)
  }

  /** The query defaults of `read_projects`. */
  const DefaultSkip: nat := 0
  const DefaultLimit: nat := 100

  /** A listing request that sends neither `skip` nor `limit`, as the
      dashboard's does, sees the first hundred rows and no more. */
  lemma ReadProjectsDefaults(s: Store)
    ensures ReadProjects(s, DefaultSkip, DefaultLimit, None) == s[..Min(100, |s|)]
    ensures |s| > 100 ==> |ReadProjects(s, DefaultSkip, DefaultLimit, None)| == 100
  {
  }

  /** Without a user filter (absent or empty) the routes pages through every row. */
  lemma ReadProjectsUnfiltered(s: Store, skip: nat, limit: nat, userId: Option<string>)
    requires userId.None? || userId.value == ""
    ensures ReadProjects(s, skip, limit, userId) == Paginate(s, skip, limit)
    ensures skip == 0 && limit >= |s| ==> ReadProjects(s, skip, limit, userId) == s
  {
  }

  /** A window wide enough for the whole table returns every row of the
      user, each as often as it is stored, and nothing else. */
  lemma ReadProjectsOfUser(s: Store, limit: nat, userId: string, p: Project)
    requires userId != "" && limit >= |s|
    ensures multiset(ReadProjects(s, 0, limit, Some(userId)))[p]
         == if p.userId == userId then multiset(s)[p] else 0
  {
    var rows := OwnedBy(s, userId);
    assert Paginate(rows, 0, limit) == rows;
    OwnedByCounts(s, userId, p);
  }

  // ---- POST / ------------------------------------------------------------------

  /** The request body; `userId` is whatever owner a client may claim, and
      an omitted `status` is `None`. */
  datatype ProjectCreate = ProjectCreate(
    name: string, description: Option<string>, status: Option<string>, userId: Option<string>)

  /** The status a row gets when the body leaves it out. */
  const DefaultStatus := "active"

  /** `create_project`: the row is owned by the caller whatever the body
      says; the database supplies the id and the timestamps. */
  function CreateProject(s: Store, body: ProjectCreate, currentUser: string, newId: int, now: int): (r: Reply<Project>)
    ensures r.answer.Ok? && r.answer.value.userId == currentUser
    ensures r.answer.value.name == body.name && r.answer.value.description == body.description
      && r.answer.value.id == newId
    ensures body.status.Some? ==> r.answer.value.status == body.status.value
    ensures body.status.None? ==> r.answer.value.status == DefaultStatus
    ensures r.store == s + [r.answer.value]
  {
    var p := Project(newId, body.name, body.description, body.status.GetOr(DefaultStatus), now, now, currentUser);
    Reply(s + [p], Ok(p))
  }

  // ---- GET /{id} ---------------------------------------------------------------

  /** `read_project`. */
  function ReadProject(s: Store, id: int): (r: Result<Project, HttpError>)
    ensures r.Err? <==> !HasId(s, id)
    ensures r.Err? ==> r.error == NotFound
    ensures r.Ok? ==> r.value in s && r.value.id == id
  {
    match Find(s, id)
    case None => Err(NotFound)
    case Some(i) => Ok(s[i])
  }

  /** With the primary key holding, the row read is the one with the id. */
  lemma ReadProjectUnique(s: Store, id: int, i: int)
    requires UniqueIds(s)
    requires 0 <= i < |s| && s[i].id == id
    ensures ReadProject(s, id) == Ok(s[i])
  {
    assert HasId(s, id);
  }

  /** A created row with a fresh id can be read back as created, and the
      primary key still holds. */
  lemma CreateThenRead(s: Store, body: ProjectCreate, currentUser: string, newId: int, now: int)
    requires UniqueIds(s) && !HasId(s, newId)
    ensures UniqueIds(CreateProject(s, body, currentUser, newId, now).store)
    ensures ReadProject(CreateProject(s, body, currentUser, newId, now).store, newId)
         == CreateProject(s, body, currentUser, newId, now).answer
  {
    var r := CreateProject(s, body, currentUser, newId, now);
    ReadProjectUnique(r.store, newId, |s|);
  }

  // ---- PATCH /{id} ---------------------------------------------------------------

  /** A field of a `ProjectUpdate` body, as `exclude_unset=True` sees it. */
  datatype Field<T> = Unset | SetTo(value: T)

  function Apply<T>(f: Field<T>, current: T): T {
    match f
    case Unset => current
    case SetTo(v) => v
  }

  datatype ProjectUpdate = ProjectUpdate(
    name: Field<string>, description: Field<Option<string>>, status: Field<string>)

  /** `setattr` for every explicitly set field; nothing else is touched. */
  function Patch(p: Project, u: ProjectUpdate): (q: Project)
    ensures q.id == p.id && q.userId == p.userId && q.createdAt == p.createdAt && q.updatedAt == p.updatedAt
    ensures u.name.Unset? ==> q.name == p.name
    ensures u.name.SetTo? ==> q.name == u.name.value
    ensures u.description.Unset? ==> q.description == p.description
    ensures u.description.SetTo? ==> q.description == u.description.value
    ensures u.status.Unset? ==> q.status == p.status
    ensures u.status.SetTo? ==> q.status == u.status.value
  {
    p.(name := Apply(u.name, p.name), description := Apply(u.description, p.description),
       status := Apply(u.status, p.status))
  }

  /** An empty body changes nothing; patching twice with the same body is
      patching once. */
  lemma PatchIdempotent(p: Project, u: ProjectUpdate)
    ensures Patch(Patch(p, u), u) == Patch(p, u)
    ensures Patch(p, ProjectUpdate(Unset, Unset, Unset)) == p
  {
  }

  /** `update_project` as written: 404 for an unknown id, otherwise the
      patched row replaces the found one. No ownership check is made,
      although the route promises that only the owner can update. */
  function UpdateProject(s: Store, id: int, u: ProjectUpdate): (r: Reply<Project>)
    ensures !HasId(s, id) ==> r == Reply(s, Err(NotFound))
    ensures HasId(s, id) ==>
      (r.answer.Ok? && |r.store| == |s|
       && exists i :: (0 <= i < |s| && s[i].id == id && r.answer.value == Patch(s[i], u)
                       && r.store == s[i := r.answer.value]))
  {
    match Find(s, id)
    case None => Reply(s, Err(NotFound))
    case Some(i) =>
      var q := Patch(s[i], u);
      Reply(s[i := q], Ok(q))
  }

  /** Replacing a row by one with the same id keeps the set of ids and the
      primary key. */
  lemma ReplaceKeepsIds(s: Store, i: int, q: Project, other: int)
    requires 0 <= i < |s| && q.id == s[i].id
    ensures HasId(s[i := q], other) <==> HasId(s, other)
    ensures UniqueIds(s) ==> UniqueIds(s[i := q])
  {
    var t := s[i := q];
    if HasId(t, other) {
      var j :| 0 <= j < |t| && t[j].id == other;
      assert s[j].id == other;
    }
    if HasId(s, other) {
      var j :| 0 <= j < |s| && s[j].id == other;
      assert t[j].id == other;
    }
  }

  /** After a successful update the row reads back patched, every other id
      reads as before, and the primary key still holds. */
  lemma UpdateThenRead(s: Store, id: int, u: ProjectUpdate, other: int)
    requires UniqueIds(s) && HasId(s, id)
    ensures UniqueIds(UpdateProject(s, id, u).store)
    ensures ReadProject(UpdateProject(s, id, u).store, id) == UpdateProject(s, id, u).answer
    ensures other != id ==> ReadProject(UpdateProject(s, id, u).store, other) == ReadProject(s, other)
  {
    var i := Find(s, id).value;
    var q := Patch(s[i], u);
    var t := UpdateProject(s, id, u).store;
    assert t == s[i := q];
    ReplaceKeepsIds(s, i, q, other);
    ReadProjectUnique(t, id, i);
    if other != id && HasId(s, other) {
      var j :| 0 <= j < |s| && s[j].id == other;
      ReadProjectUnique(s, other, j);
      ReadProjectUnique(t, other, j);
    }
  }

  const ForbiddenUpdate := HttpError(403, "Not enough permissions to update this project")

  /** `update_project` as its documentation promises: like
      `delete_project`, a caller who does not own the row gets a 403 and
      the store is left alone. */
  function OwnerUpdateProject(s: Store, id: int, u: ProjectUpdate, currentUser: string): (r: Reply<Project>)
    ensures !HasId(s, id) ==> r == Reply(s, Err(NotFound))
    ensures HasId(s, id) && r.answer.Err? ==> r == Reply(s, Err(ForbiddenUpdate))
    ensures HasId(s, id) ==> (r.answer.Ok? <==> s[Find(s, id).value].userId == currentUser)
    ensures r.answer.Ok? ==>
      exists i :: (0 <= i < |s| && s[i].id == id && s[i].userId == currentUser
                   && r.answer.value == Patch(s[i], u) && r.store == s[i := r.answer.value])
  {
    match Find(s, id)
    case None => Reply(s, Err(NotFound))
    case Some(i) =>
      if s[i].userId != currentUser then Reply(s, Err(ForbiddenUpdate))
      else
        var q := Patch(s[i], u);
        Reply(s[i := q], Ok(q))
  }

  /** With the owner check, rows owned by anyone but the caller are never
      changed, and the owner of the row gets exactly the unchecked update. */
  lemma OwnerUpdateTouchesOnlyOwn(s: Store, id: int, u: ProjectUpdate, currentUser: string)
    ensures var t := OwnerUpdateProject(s, id, u, currentUser).store;
      |t| == |s| && forall i :: 0 <= i < |s| && s[i].userId != currentUser ==> t[i] == s[i]
    ensures HasId(s, id) && s[Find(s, id).value].userId == currentUser ==>
      OwnerUpdateProject(s, id, u, currentUser) == UpdateProject(s, id, u)
  {
  }

  /** The unchecked update lets any caller rename a row another user owns,
      where the checked one refuses with a 403. */
  lemma UpdateIgnoresOwner()
    ensures var s := [Project(1, "Roadmap", None, "active", 0, 0, "alice")];
      var u := ProjectUpdate(SetTo("Defaced"), Unset, Unset);
      UpdateProject(s, 1, u).store[0].name == "Defaced" && s[0].userId == "alice"
      && OwnerUpdateProject(s, 1, u, "mallory") == Reply(s, Err(ForbiddenUpdate))
  {
    var s := [Project(1, "Roadmap", None, "active", 0, 0, "alice")];
    assert Find(s, 1) == Some(0);
  }

  // ---- DELETE /{id} --------------------------------------------------------------

  /** The store without its row at `i`. */
  function Without(s: Store, i: int): (t: Store)
    requires 0 <= i < |s|
    ensures |t| == |s| - 1
    ensures forall j :: 0 <= j < |t| ==> t[j] == if j < i then s[j] else s[j + 1]
  {
    s[..i] + s[i + 1..]
  }

  /** Removing a row of a store with a primary key removes its id and no
      other, and keeps the key. */
  lemma WithoutIds(s: Store, i: int, other: int)
    requires UniqueIds(s) && 0 <= i < |s|
    ensures UniqueIds(Without(s, i))
    ensures !HasId(Without(s, i), s[i].id)
    ensures other != s[i].id ==> (HasId(Without(s, i), other) <==> HasId(s, other))
  {
    var t := Without(s, i);
    forall a, b | 0 <= a < b < |t|
      ensures t[a].id != t[b].id
    {
      var a' := if a < i then a else a + 1;
      var b' := if b < i then b else b + 1;
      assert t[a] == s[a'] && t[b] == s[b'];
    }
    if HasId(t, other) {
      var j :| 0 <= j < |t| && t[j].id == other;
      var j' := if j < i then j else j + 1;
      assert s[j'].id == other && j' != i;
    }
    if HasId(s, other) && other != s[i].id {
      var j :| 0 <= j < |s| && s[j].id == other;
      var k := if j < i then j else j - 1;
      assert t[k] == s[j];
    }
  }

  /** `delete_project`: 404 for an unknown id, 403 when the caller does
      not own the row, otherwise the row is removed. */
  function DeleteProject(s: Store, id: int, currentUser: string): (r: Reply<()>)
    ensures !HasId(s, id) ==> r == Reply(s, Err(NotFound))
    ensures HasId(s, id) && r.answer.Err? ==> r == Reply(s, Err(Forbidden))
    ensures HasId(s, id) ==> (r.answer.Ok? <==> s[Find(s, id).value].userId == currentUser)
    ensures r.answer.Ok? ==> exists i :: 0 <= i < |s| && s[i].id == id && r.store == Without(s, i)
  {
    match Find(s, id)
    case None => Reply(s, Err(NotFound))
    case Some(i) =>
      if s[i].userId != currentUser then Reply(s, Err(Forbidden))
      else Reply(Without(s, i), Ok(()))
  }

  /** A successful delete removes the one row with the id: it reads as
      404 afterwards, every other id reads as before, and only the owner
      can get there. */
  lemma DeleteThenRead(s: Store, id: int, currentUser: string, other: int)
    requires UniqueIds(s)
    requires DeleteProject(s, id, currentUser).answer.Ok?
    ensures ReadProject(s, id).Ok? && ReadProject(s, id).value.userId == currentUser
    ensures UniqueIds(DeleteProject(s, id, currentUser).store)
    ensures ReadProject(DeleteProject(s, id, currentUser).store, id) == Err(NotFound)
    ensures other != id ==> ReadProject(DeleteProject(s, id, currentUser).store, other) == ReadProject(s, other)
  {
    var i := Find(s, id).value;
    var t := DeleteProject(s, id, currentUser).store;
    assert t == Without(s, i);
    WithoutIds(s, i, other);
    if other != id && HasId(s, other) {
      var j :| 0 <= j < |s| && s[j].id == other;
      ReadProjectUnique(s, other, j);
      var k := if j < i then j else j - 1;
      assert t[k] == s[j];
      ReadProjectUnique(t, other, k);
    }
  }
}
