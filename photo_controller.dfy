/** The photo handlers (backend/src/controllers/photo.controller.ts): two
    queries and five mutations of the section and photo tables, each
    answering with its own status, and a store failure always becoming a
    500 with the handler's message. */
module PhotoController {
  import opened Common
  import opened Http
  import opened Store
  import Upload
  import AuthGate

  const ListError := "Erro ao buscar seções de fotos"
  const SectionNotFound := "Seção de fotos não encontrada"
  const FetchError := "Erro ao buscar seção de fotos"
  const CreateError := "Erro ao criar seção de fotos"
  const UpdateError := "Erro ao atualizar seção de fotos"
  const DeleteError := "Erro ao excluir seção de fotos"
  const NoFileSent := "Nenhum arquivo foi enviado"
  const AddPhotoError := "Erro ao adicionar foto"
  const DeletePhotoError := "Erro ao excluir foto"

  /** The public path a stored upload is served from. */
  const UploadsPath := "/uploads/"

  /** Every section with its photos, in creation order. */
  function ListSections(t: Tables): (views: seq<SectionView>)
    ensures |views| == |t.sections|
    ensures forall i :: 0 <= i < |views| ==> views[i] == View(t, t.sections[i])
  {
    seq(|t.sections|, i requires 0 <= i < |t.sections| => View(t, t.sections[i]))
  }

  /** `orderBy: { createdAt: 'asc' }`: in a valid store the listing is
      strictly ascending by creation time and lists every section once. */
  lemma ListSectionsSorted(t: Tables)
    requires ValidTables(t)
    ensures forall i, j :: 0 <= i < j < |ListSections(t)| ==>
              ListSections(t)[i].createdAt < ListSections(t)[j].createdAt
    ensures forall s :: s in t.sections <==>
              exists i :: 0 <= i < |ListSections(t)| && ListSections(t)[i].id == s.id &&
                          ListSections(t)[i].createdAt == s.createdAt && ListSections(t)[i].title == s.title
  {
    var v := ListSections(t);
    forall i, j | 0 <= i < j < |v| ensures v[i].createdAt < v[j].createdAt {
      assert SectionTime(t.sections[i]) < SectionTime(t.sections[j]);
    }
    forall s | s in t.sections
      ensures exists i :: 0 <= i < |v| && v[i].id == s.id && v[i].createdAt == s.createdAt && v[i].title == s.title
    {
      var i :| 0 <= i < |t.sections| && t.sections[i] == s;
      assert v[i] == View(t, s);
    }
    forall s: SectionRow | exists i :: 0 <= i < |v| && v[i].id == s.id && v[i].createdAt == s.createdAt && v[i].title == s.title
      ensures s in t.sections
    {
      var i :| 0 <= i < |v| && v[i].id == s.id && v[i].createdAt == s.createdAt && v[i].title == s.title;
      assert t.sections[i] == s;
    }
  }

  /** `getAllPhotoSections`. */
  method GetAllPhotoSections(db: Database) returns (r: Reply<seq<SectionView>>)
    requires db.Valid()
    ensures db.reachable ==> r == Json(200, ListSections(db.tables))
    ensures !db.reachable ==> r == Message(500, ListError)
    ensures r.Json? ==> forall i, j :: 0 <= i < j < |r.body| ==> r.body[i].createdAt < r.body[j].createdAt
  {
    var found := db.FindManySections();
    match found
    case Thrown =>
      r := Message(500, ListError);
    case Ok(views) =>
      assert views == ListSections(db.tables);
      ListSectionsSorted(db.tables);
      r := Json(200, views);
  }

  /** `getPhotoSectionById`: 404 with only the message when no section has
      that id, otherwise the section with its photos. */
  method GetPhotoSectionById(db: Database, id: Id) returns (r: Reply<SectionView>)
    ensures !db.reachable ==> r == Message(500, FetchError)
    ensures db.reachable && !HasSection(db.tables.sections, id) ==> r == Message(404, SectionNotFound)
    ensures db.reachable && HasSection(db.tables.sections, id) ==>
              r.Json? && r.code == 200 && r.body.id == id &&
              (forall p :: p in r.body.photos <==> p in db.tables.photos && p.photoSectionId == id) &&
              exists s :: s in db.tables.sections && r.body == View(db.tables, s)
  {
    var found := db.FindUniqueSection(id);
    match found
    case Thrown => r := Message(500, FetchError);
    case Ok(None) => r := Message(404, SectionNotFound);
    case Ok(Some(view)) => r := Json(200, view);
  }

  /** `createPhotoSection`: one new section with the given title, appended
      after every existing one, which stay as they were. */
  method CreatePhotoSection(db: Database, title: string) returns (r: Reply<SectionRow>)
    requires db.Valid()
    modifies db
    ensures db.Valid() && db.reachable == old(db.reachable)
    ensures !db.reachable ==> r == Message(500, CreateError) && db.tables == old(db.tables)
    ensures db.reachable ==>
              r.Json? && r.code == 201 && r.body.title == title &&
              !HasSection(old(db.tables).sections, r.body.id) &&
              db.tables.sections == old(db.tables).sections + [r.body] &&
              db.tables == InsertSection(old(db.tables), title).0
  {
    var created := db.CreateSection(title);
    match created
    case Thrown => r := Message(500, CreateError);
    case Ok(row) => r := Json(201, row);
  }

  /** After a rename, looking the section up by its id finds it under the
      new title, with its id and creation time unchanged. */
  lemma {:induction false} RetitleThenFind(sections: seq<SectionRow>, id: Id, title: string)
    requires HasSection(sections, id)
    ensures FindSection(RetitleSection(sections, id, title), id) ==
              Some(FindSection(sections, id).value.(title := title))
  {
    var r := RetitleSection(sections, id, title);
    if sections[0].id != id {
      var s :| s in sections && s.id == id;
      assert s in sections[1..];
      assert r[1..] == RetitleSection(sections[1..], id, title);
      RetitleThenFind(sections[1..], id, title);
    }
  }

  /** `updatePhotoSection`: the title of that one section changes (a body
      without `title` changes nothing and still answers 200); a missing id
      makes the store throw, hence 500. */
  method UpdatePhotoSection(db: Database, id: Id, title: Option<string>) returns (r: Reply<SectionRow>)
    requires db.Valid()
    modifies db
    ensures db.Valid() && db.reachable == old(db.reachable)
    ensures !(db.reachable && HasSection(old(db.tables).sections, id)) ==>
              r == Message(500, UpdateError) && db.tables == old(db.tables)
    ensures db.reachable && HasSection(old(db.tables).sections, id) ==>
              r.Json? && r.code == 200 && r.body.id == id &&
              FindSection(db.tables.sections, id) == Some(r.body) &&
              (title.Some? ==>
                 r.body.title == title.value &&
                 db.tables == old(db.tables).(sections := RetitleSection(old(db.tables).sections, id, title.value))) &&
              (title.None? ==> db.tables == old(db.tables))
  {
    ghost var before := db.tables.sections;
    var updated := db.UpdateSection(id, title);
    match updated
    case Thrown => r := Message(500, UpdateError);
    case Ok(row) =>
      if title.Some? {
        RetitleThenFind(before, id, title.value);
      }
      r := Json(200, row);
  }

  /** `deletePhotoSection`: 204 with no body, or 500 when nothing has that id. */
  method DeletePhotoSection(db: Database, id: Id) returns (r: Reply<()>)
    requires db.Valid()
    modifies db
    ensures db.Valid() && db.reachable == old(db.reachable)
    ensures !(db.reachable && HasSection(old(db.tables).sections, id)) ==>
              r == Message(500, DeleteError) && db.tables == old(db.tables)
    ensures db.reachable && HasSection(old(db.tables).sections, id) ==>
              r == NoContent && db.tables == RemoveSection(old(db.tables), id)
  {
    var deleted := db.DeleteSection(id);
    match deleted
    case Thrown => r := Message(500, DeleteError);
    case Ok(_) => r := NoContent;
  }

  /** The URL recorded for an uploaded file. */
  function PhotoUrl(filename: string): (url: string)
    ensures UploadsPath <= url && url[|UploadsPath|..] == filename
  {
    UploadsPath + filename
  }

  /** `addPhotoToSection`: 400 without a file; otherwise one photo row whose
      URL points at the stored file and whose section is the route's. */
  method AddPhotoToSection(db: Database, photoSectionId: Id, file: Option<Upload.StoredFile>)
    returns (r: Reply<PhotoRow>)
    requires db.Valid()
    modifies db
    ensures db.Valid() && db.reachable == old(db.reachable)
    ensures file.None? ==> r == Message(400, NoFileSent) && db.tables == old(db.tables)
    ensures file.Some? && !(db.reachable && HasSection(old(db.tables).sections, photoSectionId)) ==>
              r == Message(500, AddPhotoError) && db.tables == old(db.tables)
    ensures file.Some? && db.reachable && HasSection(old(db.tables).sections, photoSectionId) ==>
              r.Json? && r.code == 201 &&
              r.body.url == PhotoUrl(file.value.filename) && r.body.photoSectionId == photoSectionId &&
              db.tables == InsertPhoto(old(db.tables), PhotoUrl(file.value.filename), photoSectionId).0
  {
    if file.None? {
      return Message(400, NoFileSent);
    }
    var url := PhotoUrl(file.value.filename);
    var created := db.CreatePhoto(url, photoSectionId);
    match created
    case Thrown => r := Message(500, AddPhotoError);
    case Ok(photo) => r := Json(201, photo);
  }

  /** `deletePhoto`: only that photo row disappears. */
  method DeletePhoto(db: Database, id: Id) returns (r: Reply<()>)
    requires db.Valid()
    modifies db
    ensures db.Valid() && db.reachable == old(db.reachable)
    ensures !(db.reachable && HasPhoto(old(db.tables).photos, id)) ==>
              r == Message(500, DeletePhotoError) && db.tables == old(db.tables)
    ensures db.reachable && HasPhoto(old(db.tables).photos, id) ==>
              r == NoContent && db.tables == RemovePhoto(old(db.tables), id)
  {
    var deleted := db.DeletePhoto(id);
    match deleted
    case Thrown => r := Message(500, DeletePhotoError);
    case Ok(_) => r := NoContent;
  }

  /** The middleware order of `POST /:photoSectionId/photos`
      (backend/src/routes/photo.routes.ts): the gate, then the upload, then
      the handler. A refusal by either middleware answers before the handler
      runs, so no photo row is created. */
  method AddPhotoRoute(db: Database, session: Option<Id>, header: Option<string>,
                       verify: string -> AuthGate.Verified, photoSectionId: Id,
                       file: Option<Upload.IncomingFile>, timestamp: nat, random: nat)
    returns (r: Reply<PhotoRow>)
    requires db.Valid()
    modifies db
    ensures db.Valid() && db.reachable == old(db.reachable)
    ensures AuthGate.Gate(session, header, verify).Reject? ==>
              r == Message(401, AuthGate.Gate(session, header, verify).message) && db.tables == old(db.tables)
    ensures AuthGate.Gate(session, header, verify).Next? &&
            Upload.SingleUpload(file, timestamp, random).Failed? ==>
              r == FallbackHandler(Upload.SingleUpload(file, timestamp, random).error) &&
              r.code == 500 && db.tables == old(db.tables)
    // Past both middlewares without a file: the handler's 400.
    ensures AuthGate.Gate(session, header, verify).Next? && file.None? ==>
              r == Message(400, NoFileSent) && db.tables == old(db.tables)
    // Past both middlewares with a file: the store decides.
    ensures AuthGate.Gate(session, header, verify).Next? && file.Some? &&
            Upload.SingleUpload(file, timestamp, random).Passed? ==>
              var url := PhotoUrl(Upload.Filename(file.value.fieldname, timestamp, random, file.value.originalname));
              (db.reachable && HasSection(old(db.tables).sections, photoSectionId) ==>
                 r.Json? && r.code == 201 && r.body.url == url && r.body.photoSectionId == photoSectionId &&
                 db.tables == InsertPhoto(old(db.tables), url, photoSectionId).0) &&
              (!(db.reachable && HasSection(old(db.tables).sections, photoSectionId)) ==>
                 r == Message(500, AddPhotoError) && db.tables == old(db.tables))
    ensures r.Status() == 201 ==>
              r.Json? && file.Some? &&
              Upload.IsImage(file.value.mimetype) && file.value.size <= Upload.MaxFileSize &&
              r.body.url == PhotoUrl(Upload.Filename(file.value.fieldname, timestamp, random,
                                                     file.value.originalname)) &&
              r.body.photoSectionId == photoSectionId
  {
    var gate := AuthGate.Gate(session, header, verify);
    if gate.Reject? {
      return Message(401, gate.message);
    }
    var upload := Upload.SingleUpload(file, timestamp, random);
    match upload
    case Failed(error) =>
      r := FallbackHandler(error);
    case Passed(stored) =>
      r := AddPhotoToSection(db, photoSectionId, stored);
  }
}
