/** The gallery page's client state (frontend/src/pages/Photos.tsx): the
    list of sections with their photos, replaced by a new list after each
    service call that succeeds. The list transforms are functions; the
    handlers are methods of `PhotosPage`, with the service's answer, the
    `confirm` answer and the `prompt` answer as parameters. */
module PhotosPage {
  import opened Common

  type Id = int

  datatype Photo = Photo(id: Id, url: string, photoSectionId: Id)
  datatype Section = Section(id: Id, title: string, photos: seq<Photo>)

  /** The section the server returns from a create: it has no photos yet. */
  datatype CreatedSection = CreatedSection(id: Id, title: string)

  // ------------------------------------------------------------ transforms

  /** `handleAddPhoto`'s map: the new photo goes at the end of the matching
      sections' photos. */
  function AddPhotoTo(s: seq<Section>, sectionId: Id, photo: Photo): (r: seq<Section>)
    ensures |r| == |s|
    ensures forall i :: 0 <= i < |r| ==>
              r[i].id == s[i].id && r[i].title == s[i].title &&
              (s[i].id == sectionId ==> r[i].photos == s[i].photos + [photo]) &&
              (s[i].id != sectionId ==> r[i] == s[i])
  {
    seq(|s|, i requires 0 <= i < |s| =>
      if s[i].id == sectionId then s[i].(photos := s[i].photos + [photo]) else s[i])
  }

  /** `handleDeletePhoto`'s map: photos with that id leave the given
      section only. */
  function WithoutPhoto(s: seq<Section>, sectionId: Id, photoId: Id): (r: seq<Section>)
    ensures |r| == |s|
    ensures forall i :: 0 <= i < |r| ==>
              r[i].id == s[i].id && r[i].title == s[i].title &&
              (s[i].id == sectionId ==>
                 forall p :: p in r[i].photos <==> p in s[i].photos && p.id != photoId) &&
              (s[i].id != sectionId ==> r[i] == s[i])
  {
    seq(|s|, i requires 0 <= i < |s| =>
      if s[i].id == sectionId then s[i].(photos := Filter(s[i].photos, (p: Photo) => p.id != photoId))
      else s[i])
  }

  /** `handleDeleteSection`'s filter. */
  function WithoutSection(s: seq<Section>, sectionId: Id): (r: seq<Section>)
    ensures forall x :: x in r <==> x in s && x.id != sectionId
  {
    Filter(s, (x: Section) => x.id != sectionId)
  }

  /** The rename map: only the matching sections' titles change. */
  function Retitle(s: seq<Section>, sectionId: Id, title: string): (r: seq<Section>)
    ensures |r| == |s|
    ensures forall i :: 0 <= i < |r| ==>
              r[i].id == s[i].id && r[i].photos == s[i].photos &&
              r[i].title == (if s[i].id == sectionId then title else s[i].title)
  {
    seq(|s|, i requires 0 <= i < |s| =>
      if s[i].id == sectionId then s[i].(title := title) else s[i])
  }

  /** The create-section update: `[...photoSections, { ...newSection, photos: [] }]`. */
  function AppendSection(s: seq<Section>, created: CreatedSection): (r: seq<Section>)
    ensures |r| == |s| + 1 && r[..|s|] == s
    ensures r[|s|] == Section(created.id, created.title, [])
  {
    s + [Section(created.id, created.title, [])]
  }

  /** The rename guard `newTitle && newTitle !== title`: a cancelled
      prompt, an empty answer and the unchanged title do nothing. */
  predicate ShouldRename(answer: Option<string>, title: string) {
    answer.Some? && answer.value != "" && answer.value != title
  }

  /** The create guard `if (title)`: a cancelled or empty prompt does nothing. */
  predicate ShouldCreate(answer: Option<string>) {
    answer.Some? && answer.value != ""
  }

  // ------------------------------------------------------- their partners

  /** Deleting a photo just added undoes the addition, provided no photo of
      that section already had its id. */
  lemma DeleteUndoesAddPhoto(s: seq<Section>, sectionId: Id, photo: Photo)
    requires forall i, q :: 0 <= i < |s| && s[i].id == sectionId && q in s[i].photos ==> q.id != photo.id
    ensures WithoutPhoto(AddPhotoTo(s, sectionId, photo), sectionId, photo.id) == s
  {
    var keep := (p: Photo) => p.id != photo.id;
    var a := AddPhotoTo(s, sectionId, photo);
    var r := WithoutPhoto(a, sectionId, photo.id);
    forall i | 0 <= i < |s| ensures r[i] == s[i] {
      if s[i].id == sectionId {
        FilterConcat(s[i].photos, [photo], keep);
        FilterKeepsAll(s[i].photos, keep);
        assert Filter([photo], keep) == [];
        assert r[i].photos == Filter(s[i].photos + [photo], keep);
      }
    }
  }

  /** Deleting a section just created undoes the creation, provided its id
      was new; the other sections keep their order. */
  lemma DeleteUndoesAppendSection(s: seq<Section>, created: CreatedSection)
    requires forall x :: x in s ==> x.id != created.id
    ensures WithoutSection(AppendSection(s, created), created.id) == s
  {
    var keep := (x: Section) => x.id != created.id;
    FilterConcat(s, [Section(created.id, created.title, [])], keep);
    FilterKeepsAll(s, keep);
  }

  /** Deleting the same section twice is deleting it once. */
  lemma WithoutSectionIdempotent(s: seq<Section>, sectionId: Id)
    ensures WithoutSection(WithoutSection(s, sectionId), sectionId) == WithoutSection(s, sectionId)
  {
    FilterIdempotent(s, (x: Section) => x.id != sectionId);
  }

  /** Deleting a section keeps the others in their relative order: the
      sections before it and after it close up around the gap. */
  lemma WithoutSectionKeepsOrder(a: seq<Section>, x: Section, b: seq<Section>)
    requires forall y :: y in a + b ==> y.id != x.id
    ensures WithoutSection(a + [x] + b, x.id) == a + b
  {
    var keep := (y: Section) => y.id != x.id;
    assert Filter(a, keep) == a by {
      forall y | y in a ensures keep(y) {
        assert y in a + b;
      }
      FilterKeepsAll(a, keep);
    }
    assert Filter(b, keep) == b by {
      forall y | y in b ensures keep(y) {
        assert y in a + b;
      }
      FilterKeepsAll(b, keep);
    }
    assert Filter([x], keep) == [] by {
      assert [x][1..] == [];
    }
    FilterConcat(a, [x], keep);
    FilterConcat(a + [x], b, keep);
    calc {
      WithoutSection(a + [x] + b, x.id);
      Filter(a + [x] + b, keep);
      Filter(a + [x], keep) + Filter(b, keep);
      Filter(a, keep) + Filter([x], keep) + Filter(b, keep);
      a + [] + b;
      { assert a + [] == a; }
      a + b;
    }
  }

  /** Renaming twice is renaming once, to the last title. */
  lemma RetitleLastWins(s: seq<Section>, sectionId: Id, t1: string, t2: string)
    ensures Retitle(Retitle(s, sectionId, t1), sectionId, t2) == Retitle(s, sectionId, t2)
  {
  }

  /** Renaming back restores the list when the ids are unique. */
  lemma RetitleBack(s: seq<Section>, i: nat, title: string)
    requires i < |s|
    requires forall j :: 0 <= j < |s| && j != i ==> s[j].id != s[i].id
    ensures Retitle(Retitle(s, s[i].id, title), s[i].id, s[i].title) == s
  {
    var r := Retitle(Retitle(s, s[i].id, title), s[i].id, s[i].title);
    forall j | 0 <= j < |s| ensures r[j] == s[j] {
      if j == i {
        assert r[j].title == s[j].title;
      }
    }
  }

  // ------------------------------------------------------------- the page

  class PhotosPage {
    var photoSections: seq<Section>
    var isLoading: bool

    /** `useState([])` and `useState(true)`. */
    constructor ()
      ensures photoSections == [] && isLoading
    {
      photoSections := [];
      isLoading := true;
    }

    /** `fetchPhotoSections`: the answer replaces the list; a failure keeps
        it; loading ends either way. */
    method FetchPhotoSections(answer: Try<seq<Section>>)
      modifies this
      ensures !isLoading
      ensures photoSections == (if answer.Ok? then answer.value else old(photoSections))
    {
      isLoading := true;
      if answer.Ok? {
        photoSections := answer.value;
      }
      isLoading := false;
    }

    /** `handleAddPhoto`: nothing without a chosen file or when the upload fails. */
    method HandleAddPhoto(sectionId: Id, fileChosen: bool, answer: Try<Photo>)
      modifies this
      ensures isLoading == old(isLoading)
      ensures photoSections == (if fileChosen && answer.Ok?
                                then AddPhotoTo(old(photoSections), sectionId, answer.value)
                                else old(photoSections))
    {
      if fileChosen {
        match answer
        case Ok(photo) => photoSections := AddPhotoTo(photoSections, sectionId, photo);
        case Thrown =>
      }
    }

    /** `handleDeleteSection`: a declined confirm makes no call. */
    method HandleDeleteSection(sectionId: Id, confirmed: bool, answer: Try<()>)
      modifies this
      ensures isLoading == old(isLoading)
      ensures photoSections == (if confirmed && answer.Ok?
                                then WithoutSection(old(photoSections), sectionId)
                                else old(photoSections))
    {
      if confirmed {
        match answer
        case Ok(_) => photoSections := WithoutSection(photoSections, sectionId);
        case Thrown =>
      }
    }

    /** `handleDeletePhoto`: a declined confirm makes no call. */
    method HandleDeletePhoto(photoId: Id, sectionId: Id, confirmed: bool, answer: Try<()>)
      modifies this
      ensures isLoading == old(isLoading)
      ensures photoSections == (if confirmed && answer.Ok?
                                then WithoutPhoto(old(photoSections), sectionId, photoId)
                                else old(photoSections))
    {
      if confirmed {
        match answer
        case Ok(_) => photoSections := WithoutPhoto(photoSections, sectionId, photoId);
        case Thrown =>
      }
    }

    /** The rename button: prompts with the current title and renames only
        on a non-empty, different answer that the server accepts. */
    method RenameSection(sectionId: Id, title: string, answer: Option<string>, result: Try<()>)
      modifies this
      ensures isLoading == old(isLoading)
      ensures photoSections == (if ShouldRename(answer, title) && result.Ok?
                                then Retitle(old(photoSections), sectionId, answer.value)
                                else old(photoSections))
    {
      if ShouldRename(answer, title) {
        match result
        case Ok(_) => photoSections := Retitle(photoSections, sectionId, answer.value);
        case Thrown =>
      }
    }

    /** The add-section button: a non-empty title the server accepts ends
        up as a new, empty last section. */
    method CreateSection(answer: Option<string>, result: Try<CreatedSection>)
      modifies this
      ensures isLoading == old(isLoading)
      ensures photoSections == (if ShouldCreate(answer) && result.Ok?
                                then AppendSection(old(photoSections), result.value)
                                else old(photoSections))
    {
      if ShouldCreate(answer) {
        match result
        case Ok(created) => photoSections := AppendSection(photoSections, created);
        case Thrown =>
      }
    }
  }
}
