/** The news controller: a news table held by the router, two public reads
    (list, get by id) and three writes (create, update, delete) behind the
    administrator guard.

    The table is a sequence of rows in one fixed order (the store promises
    none: the reads have no `orderBy`); NoticiaID is unique, and a create
    takes the next value of an auto-increment counter. */
module News {
  import opened Common
  import opened JsValues

  /** A row of the news table (Noticia). */
  datatype NewsItem = NewsItem(id: int, title: string, text: string, image: Option<string>, active: int)

  /** The projection the reads return: `{NoticiaID, Titulo, Texto, Imagen}`. */
  datatype NewsView = NewsView(id: int, title: string, text: string, image: Option<string>)

  /** The role the guard of the write endpoints asks for. */
  const AdminRole: string := "ADMIN"

  /** `authenticateAdmin`: refuses a missing or empty role and any role that
      is not exactly "ADMIN". */
  function IsAdmin(role: Option<string>): (ok: bool)
    ensures ok <==> role == Some(AdminRole)
  {
    !(role.None? || role.value == "" || role.value != AdminRole)
  }

  /** The middleware's stub identity passes the guard. */
  lemma StubRoleIsAdmin()
    ensures IsAdmin(Some(StubRole))
  {
  }

  function Project(n: NewsItem): NewsView {
    NewsView(n.id, n.title, n.text, n.image)
  }

  /** GET `/`: every row, projected, in the order of the modelled table. */
  function ListNews(rows: seq<NewsItem>): (r: seq<NewsView>)
    ensures |r| == |rows|
    ensures forall i :: 0 <= i < |rows| ==> r[i] == NewsView(rows[i].id, rows[i].title, rows[i].text, rows[i].image)
  {
    if rows == [] then [] else [Project(rows[0])] + ListNews(rows[1..])
  }

  /** The listing does not filter on `Activo`: every row is listed,
      whatever its flag. */
  lemma ListIncludesEveryRow(rows: seq<NewsItem>, i: nat)
    requires i < |rows|
    ensures Project(rows[i]) in ListNews(rows)
  {
    assert ListNews(rows)[i] == Project(rows[i]);
  }

  predicate UniqueIds(rows: seq<NewsItem>) {
    forall i, j :: 0 <= i < j < |rows| ==> rows[i].id != rows[j].id
  }

  /** The store's lookup by NoticiaID: the position of the row, if any. */
  function FindNews(rows: seq<NewsItem>, id: int): (r: Option<nat>)
    ensures r.Some? ==> r.value < |rows| && rows[r.value].id == id
    ensures r.None? ==> forall i :: 0 <= i < |rows| ==> rows[i].id != id
  {
    if rows == [] then None
    else if rows[0].id == id then Some(0)
    else match FindNews(rows[1..], id)
      case None => None
      case Some(k) => Some(k + 1)
  }

  /** The key-level view of the news table. */
  function Lookup(rows: seq<NewsItem>, id: int): Option<NewsItem>
  {
    match FindNews(rows, id)
    case None => None
    case Some(i) => Some(rows[i])
  }

  /** GET `/:id`: 400 for an id that does not parse, 404 for an id with no
      row, otherwise the row's projection. */
  function GetNews(rows: seq<NewsItem>, idText: string): (r: Outcome<NewsView>)
    ensures ParseInt(idText).None? ==> r == Refused(BadRequest)
    ensures ParseInt(idText).Some? && (forall i :: 0 <= i < |rows| ==> rows[i].id != ParseInt(idText).value)
            ==> r == Refused(NotFound)
    ensures ParseInt(idText).Some? && (exists i :: 0 <= i < |rows| && rows[i].id == ParseInt(idText).value)
            ==> r.Done?
    ensures r.Done? ==> r.status == Ok
                        && r.value.id == ParseInt(idText).value
                        && exists i :: 0 <= i < |rows| && r.value == NewsView(rows[i].id, rows[i].title, rows[i].text, rows[i].image)
  {
    match ParseInt(idText)
    case None => Refused(BadRequest)
    case Some(id) =>
      match Lookup(rows, id)
      case None => Refused(NotFound)
      case Some(n) => Done(Ok, Project(n))
  }

  // ----- Store operations -----

  /** `update` of title, text and image of the row at `i`. */
  function Overwritten(rows: seq<NewsItem>, i: nat, title: string, text: string, image: Option<string>): seq<NewsItem>
    requires i < |rows|
  {
    rows[i := rows[i].(title := title, text := text, image := image)]
  }

  /** `delete` of the row at `i`. */
  function Removed(rows: seq<NewsItem>, i: nat): seq<NewsItem>
    requires i < |rows|
  {
    rows[..i] + rows[i + 1..]
  }

  /** Under unique ids, the row at `k` is the one the lookup finds. */
  lemma LookupAt(rows: seq<NewsItem>, k: nat)
    requires UniqueIds(rows) && k < |rows|
    ensures FindNews(rows, rows[k].id) == Some(k)
    ensures Lookup(rows, rows[k].id) == Some(rows[k])
  {
    assert FindNews(rows, rows[k].id).Some?;
  }

  /** Under unique ids, `Get` with any path segment that `parseInt` reads
      as a row's id (`"5"`, `"05"`, `" 5"`, `"+5"`, `"5abc"`) returns the
      projection of that row. */
  lemma GetFindsRow(rows: seq<NewsItem>, k: nat, idText: string)
    requires UniqueIds(rows) && k < |rows| && ParseInt(idText) == Some(rows[k].id)
    ensures GetNews(rows, idText) == Done(Ok, Project(rows[k]))
  {
    LookupAt(rows, k);
  }

  /** In particular the plain decimal spelling of a row's id finds it. */
  lemma GetByDecimalId(rows: seq<NewsItem>, k: nat)
    requires UniqueIds(rows) && k < |rows|
    ensures GetNews(rows, IntToString(rows[k].id)) == Done(Ok, Project(rows[k]))
  {
    ParseIntOfIntToString(rows[k].id, "");
    assert IntToString(rows[k].id) + "" == IntToString(rows[k].id);
    GetFindsRow(rows, k, IntToString(rows[k].id));
  }

  /** Appending a row whose id no row of the table has adds exactly that
      id. */
  lemma AppendedLookup(rows: seq<NewsItem>, n: NewsItem, id: int)
    requires UniqueIds(rows)
    requires forall m | m in rows :: m.id != n.id
    ensures UniqueIds(rows + [n])
    ensures Lookup(rows + [n], id) == if id == n.id then Some(n) else Lookup(rows, id)
  {
    var r := rows + [n];
    assert forall k :: 0 <= k < |rows| ==> r[k] == rows[k] && rows[k] in rows;
    assert UniqueIds(r);
    LookupAt(r, |rows|);
    if id != n.id {
      match FindNews(rows, id)
      case Some(k) =>
        LookupAt(r, k);
      case None =>
        assert forall k :: 0 <= k < |r| ==> r[k].id != id;
    }
  }

  /** An update changes title, text and image of the row with that id,
      keeps its id and `Activo`, and leaves every other row as it was. */
  lemma OverwrittenLookup(rows: seq<NewsItem>, i: nat, title: string, text: string, image: Option<string>, id: int)
    requires UniqueIds(rows) && i < |rows|
    ensures UniqueIds(Overwritten(rows, i, title, text, image))
    ensures Lookup(Overwritten(rows, i, title, text, image), id)
         == if id == rows[i].id
            then Some(NewsItem(rows[i].id, title, text, image, rows[i].active))
            else Lookup(rows, id)
  {
    var r := Overwritten(rows, i, title, text, image);
    assert forall k :: 0 <= k < |r| ==> r[k].id == rows[k].id;
    assert UniqueIds(r);
    LookupAt(r, i);
    if id != rows[i].id {
      match FindNews(rows, id)
      case Some(k) =>
        LookupAt(r, k);
      case None =>
        assert forall k :: 0 <= k < |r| ==> r[k].id != id;
    }
  }

  /** A delete removes exactly the deleted row's id. */
  lemma RemovedLookup(rows: seq<NewsItem>, i: nat, id: int)
    requires UniqueIds(rows) && i < |rows|
    ensures UniqueIds(Removed(rows, i))
    ensures forall m | m in Removed(rows, i) :: m in rows
    ensures Lookup(Removed(rows, i), id) == if id == rows[i].id then None else Lookup(rows, id)
  {
    var r := Removed(rows, i);
    assert |r| == |rows| - 1;
    assert forall k :: 0 <= k < |r| ==> r[k] == rows[if k < i then k else k + 1];
    assert UniqueIds(r) by {
      forall a, b | 0 <= a < b < |r|
        ensures r[a].id != r[b].id
      {
        var a', b' := (if a < i then a else a + 1), (if b < i then b else b + 1);
        assert a' < b';
      }
    }
    forall m | m in r
      ensures m in rows
    {
      var k :| 0 <= k < |r| && r[k] == m;
      assert m == rows[if k < i then k else k + 1];
    }
    if id == rows[i].id {
      forall k | 0 <= k < |r|
        ensures r[k].id != id
      {
        var k' := if k < i then k else k + 1;
        assert k' != i && r[k] == rows[k'];
      }
    } else {
      match FindNews(rows, id)
      case Some(k) =>
        assert k != i;
        var k' := if k < i then k else k - 1;
        assert r[k'] == rows[k];
        LookupAt(r, k');
      case None =>
        assert forall k :: 0 <= k < |r| ==> r[k].id != id;
    }
  }

  /** The news table held by the router, with the three guarded writes. */
  class NewsBoard {
    var rows: seq<NewsItem>
    /** The next value of the NoticiaID auto-increment counter. */
    var nextId: int

    ghost predicate Valid()
      reads this
    {
      UniqueIds(rows) && forall n | n in rows :: n.id < nextId
    }

    constructor (rows: seq<NewsItem>, nextId: int)
      requires UniqueIds(rows) && forall n | n in rows :: n.id < nextId
      ensures Valid() && this.rows == rows && this.nextId == nextId
    {
      this.rows := rows;
      this.nextId := nextId;
    }

    /** POST `/`: create a row with `Activo = 1` and `Imagen = imagen || null`. */
    method Create(role: Option<string>, title: Option<string>, text: Option<string>, image: Option<string>)
      returns (r: Outcome<NewsItem>)
      requires Valid()
      modifies this
      ensures Valid()
      ensures !IsAdmin(role) ==> r == Refused(Forbidden) && rows == old(rows) && nextId == old(nextId)
      ensures IsAdmin(role) && (!Truthy(title) || !Truthy(text))
              ==> r == Refused(BadRequest) && rows == old(rows) && nextId == old(nextId)
      ensures IsAdmin(role) && Truthy(title) && Truthy(text)
              ==> var n := NewsItem(old(nextId), title.value, text.value, OrNull(image), 1);
                  r == Done(Created, n) && rows == old(rows) + [n] && nextId == old(nextId) + 1
                  && Lookup(rows, n.id) == Some(n)
    {
      if !IsAdmin(role) {
        return Refused(Forbidden);
      }
      if !Truthy(title) || !Truthy(text) {
        return Refused(BadRequest);
      }
      var n := NewsItem(nextId, title.value, text.value, OrNull(image), 1);
      AppendedLookup(rows, n, n.id);
      rows := rows + [n];
      nextId := nextId + 1;
      r := Done(Created, n);
    }

    /** PUT `/:id`: overwrite title, text and image (`imagen || null`) of an
        existing row. */
    method Update(role: Option<string>, idText: string, title: Option<string>, text: Option<string>, image: Option<string>)
      returns (r: Outcome<NewsItem>)
      requires Valid()
      modifies this`rows
      ensures Valid()
      ensures !IsAdmin(role) ==> r == Refused(Forbidden) && rows == old(rows)
      ensures IsAdmin(role) && ParseInt(idText).None? ==> r == Refused(BadRequest) && rows == old(rows)
      ensures IsAdmin(role) && ParseInt(idText).Some? && (!Truthy(title) || !Truthy(text))
              ==> r == Refused(BadRequest) && rows == old(rows)
      ensures IsAdmin(role) && ParseInt(idText).Some? && Truthy(title) && Truthy(text)
              && Lookup(old(rows), ParseInt(idText).value).None?
              ==> r == Refused(NotFound) && rows == old(rows)
      ensures IsAdmin(role) && ParseInt(idText).Some? && Truthy(title) && Truthy(text)
              && FindNews(old(rows), ParseInt(idText).value).Some?
              ==> var i := FindNews(old(rows), ParseInt(idText).value).value;
                  rows == Overwritten(old(rows), i, title.value, text.value, OrNull(image))
                  && r == Done(Ok, rows[i])
    {
      var id := ParseInt(idText);
      if !IsAdmin(role) {
        return Refused(Forbidden);
      }
      if id.None? {
        return Refused(BadRequest);
      }
      if !Truthy(title) || !Truthy(text) {
        return Refused(BadRequest);
      }
      var found := FindNews(rows, id.value);
      if found.None? {
        return Refused(NotFound);
      }
      var i := found.value;
      OverwrittenLookup(rows, i, title.value, text.value, OrNull(image), id.value);
      rows := rows[i := rows[i].(title := title.value, text := text.value, image := OrNull(image))];
      r := Done(Ok, rows[i]);
    }

    /** DELETE `/:id`: remove an existing row. */
    method Delete(role: Option<string>, idText: string) returns (status: Status)
      requires Valid()
      modifies this`rows
      ensures Valid()
      ensures !IsAdmin(role) ==> status == Forbidden && rows == old(rows)
      ensures IsAdmin(role) && ParseInt(idText).None? ==> status == BadRequest && rows == old(rows)
      ensures IsAdmin(role) && ParseInt(idText).Some? && Lookup(old(rows), ParseInt(idText).value).None?
              ==> status == NotFound && rows == old(rows)
      ensures IsAdmin(role) && ParseInt(idText).Some? && FindNews(old(rows), ParseInt(idText).value).Some?
              ==> status == Ok && rows == Removed(old(rows), FindNews(old(rows), ParseInt(idText).value).value)
    {
      var id := ParseInt(idText);
      if !IsAdmin(role) {
        return Forbidden;
      }
      if id.None? {
        return BadRequest;
      }
      var found := FindNews(rows, id.value);
      if found.None? {
        return NotFound;
      }
      RemovedLookup(rows, found.value, id.value);
      rows := Removed(rows, found.value);
      status := Ok;
    }
  }
}
