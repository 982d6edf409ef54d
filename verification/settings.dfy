/** The back end's settings (backend/app/core/config.py): the token
    lifetime and the two field validators. Values read from the environment
    are parameters. */
module Settings {
  import opened Wrappers
  import opened Text

  /** `ACCESS_TOKEN_EXPIRE_MINUTES`: eight days. */
  const AccessTokenExpireMinutes: int := 60 * 24 * 8

  /** The deployment-dependent settings the routes read. */
  datatype Config = Config(apiUrl: string, frontendUrl: string, tenantId: string, clientId: string)

  /** The raw value handed to a `mode="before"` validator. */
  datatype PyValue = PyStr(s: string) | PyList(items: seq<string>) | PyNone | PyOther

  /** Python's `str.strip()`. */
  function PyStrip(s: string): string {
    Strip(s, IsPySpace)
  }

  function StripAll(parts: seq<string>): (r: seq<string>)
    ensures |r| == |parts|
    ensures forall i :: 0 <= i < |parts| ==> r[i] == PyStrip(parts[i])
  {
    seq(|parts|, i requires 0 <= i < |parts| => PyStrip(parts[i]))
  }

  /** `assemble_cors_origins`: a string that does not open a JSON list is a
      comma-separated list; a list, or a string that opens one, passes
      through; anything else is a `ValueError`. */
  function AssembleCorsOrigins(v: PyValue): (r: Result<PyValue, PyValue>)
    ensures v.PyStr? && !StartsWith(v.s, "[") ==>
      r.Ok? && r.value.PyList? && |r.value.items| == Count(v.s, ',') + 1
      && forall i :: 0 <= i < |r.value.items| ==> r.value.items[i] == PyStrip(Split(v.s, ',')[i])
    ensures (v.PyStr? && StartsWith(v.s, "[")) || v.PyList? ==> r == Ok(v)
    ensures v.PyNone? || v.PyOther? ==> r == Err(v)
  {
    if v.PyStr? && !StartsWith(v.s, "[") then Ok(PyList(StripAll(Split(v.s, ','))))
    else if v.PyStr? || v.PyList? then Ok(v)
    else Err(v)
  }

  /** Each origin of a split string is a stretch of the string between two
      commas with its surrounding spaces cut: it holds no comma and does not
      start or end with a space. */
  lemma CorsOriginsAreTrimmedPieces(s: string, i: int)
    requires !StartsWith(s, "[")
    requires 0 <= i <= Count(s, ',')
    ensures var o := AssembleCorsOrigins(PyStr(s)).value.items[i];
      ',' !in o && (|o| > 0 ==> !IsPySpace(o[0]) && !IsPySpace(o[|o| - 1]))
  {
    var parts := Split(s, ',');
    assert AssembleCorsOrigins(PyStr(s)).value.items[i] == PyStrip(parts[i]);
    StripAvoids(parts[i], ',', IsPySpace);
  }

  /** Stripping adds no character: one absent from a string is absent from
      the stripped string. */
  lemma StripAvoids(s: string, c: char, space: char -> bool)
    requires c !in s
    ensures c !in Strip(s, space)
  {
    var a := LeadingSpaces(s, space);
    var r := Strip(s, space);
    assert r == s[a..a + |r|];
  }

  /** A list written without spaces round-trips: joining the origins with
      commas gives the string back. */
  lemma CorsOriginsRoundTrip(s: string)
    requires !StartsWith(s, "[")
    requires forall i :: 0 <= i < |s| ==> !IsPySpace(s[i])
    ensures Join(AssembleCorsOrigins(PyStr(s)).value.items, ",") == s
  {
    var parts := Split(s, ',');
    assert AssembleCorsOrigins(PyStr(s)) == Ok(PyList(StripAll(parts)));
    forall i | 0 <= i < |parts|
      ensures PyStrip(parts[i]) == parts[i]
    {
      NoSpaceInPiece(s, parts, i);
      StripNoSpace(parts[i], IsPySpace);
    }
    assert StripAll(parts) == parts;
    assert Join(parts, [',']) == s;
  }

  /** A piece of a split string consists of characters of the string. */
  lemma {:induction false} NoSpaceInPiece(s: string, parts: seq<string>, i: int)
    requires parts == Split(s, ',')
    requires forall k :: 0 <= k < |s| ==> !IsPySpace(s[k])
    requires 0 <= i < |parts|
    ensures forall k :: 0 <= k < |parts[i]| ==> !IsPySpace(parts[i][k])
  {
    if |s| > 0 {
      var rest := Split(s[1..], ',');
      assert forall k :: 0 <= k < |s[1..]| ==> !IsPySpace(s[1..][k]);
      if s[0] == ',' {
        if i > 0 {
          NoSpaceInPiece(s[1..], rest, i - 1);
        }
      } else {
        NoSpaceInPiece(s[1..], rest, i);
        if i > 0 {
          assert parts[i] == rest[i];
        }
      }
    }
  }

  /** Stripping a string without spaces leaves it as it is. */
  lemma StripNoSpace(s: string, space: char -> bool)
    requires forall k :: 0 <= k < |s| ==> !space(s[k])
    ensures Strip(s, space) == s
  {
    var a := LeadingSpaces(s, space);
    assert a == 0;
  }

  /** The connection string when none is given: the parts of
      `PostgresDsn.build`. */
  datatype DatabaseUri = GivenUri(uri: string) | BuiltUri(scheme: string, username: string, password: string, host: string, path: string)

  /** `assemble_db_connection`: a given string passes through unchanged;
      otherwise the URI is built from the server settings, with an empty
      path when no database name is set. */
  function AssembleDbConnection(v: PyValue, user: string, password: string, server: string, db: Option<string>): (r: DatabaseUri)
    ensures v.PyStr? ==> r == GivenUri(v.s)
    ensures !v.PyStr? ==>
      (r.BuiltUri? && r.scheme == "postgresql" && r.host == server
       && r.username == user && r.password == password
       && r.path == (if db.Some? then db.value else ""))
  {
    if v.PyStr? then GivenUri(v.s)
    else BuiltUri("postgresql", user, password, server, if db.Some? && db.value != "" then db.value else "")
  }

  /** A configured string wins over the server settings: whatever those
      are, the result is the same. Without one, the result depends only on
      the settings, not on which non-string value was given. */
  lemma DbConnectionIndependence(v: PyValue, w: PyValue, user: string, password: string, server: string, db: Option<string>,
                                 user2: string, password2: string, server2: string, db2: Option<string>)
    ensures v.PyStr? ==>
      AssembleDbConnection(v, user, password, server, db) == AssembleDbConnection(v, user2, password2, server2, db2)
    ensures !v.PyStr? && !w.PyStr? ==>
      AssembleDbConnection(v, user, password, server, db) == AssembleDbConnection(w, user, password, server, db)
  {
  }

  /** The built URI names no database exactly when the database setting is
      missing or empty, and otherwise names it. */
  lemma DbPathEmptyIff(v: PyValue, user: string, password: string, server: string, db: Option<string>)
    requires !v.PyStr?
    ensures AssembleDbConnection(v, user, password, server, db).path == "" <==> db.None? || db.value == ""
  {
  }
}
