/** An in-memory stand-in for the relational store behind the Prisma
    client: four tables, their autoincrement counters and a logical clock
    for `createdAt`. Each ORM call the handlers make is a method of
    `Database`, specified by a function on the table snapshot. */
module Store {
  import opened Common

  type Id = int

  datatype User = User(id: Id, username: string, password: string)
  datatype StoryRow = StoryRow(id: Id, title: string, content: string)
  datatype SectionRow = SectionRow(id: Id, title: string, createdAt: nat)
  datatype PhotoRow = PhotoRow(id: Id, url: string, photoSectionId: Id)

  /** A section with its photos attached (`include: { photos: true }`). */
  datatype SectionView = SectionView(id: Id, title: string, createdAt: nat, photos: seq<PhotoRow>)

  /** The whole store: rows in insertion order, the next autoincrement id
      of each table, and the logical time the next row is created at. */
  datatype Tables = Tables(
    users: seq<User>,
    stories: seq<StoryRow>,
    sections: seq<SectionRow>,
    photos: seq<PhotoRow>,
    nextUserId: Id,
    nextStoryId: Id,
    nextSectionId: Id,
    nextPhotoId: Id,
    clock: nat)

  function EmptyTables(): (t: Tables)
    ensures t.users == [] && t.stories == [] && t.sections == [] && t.photos == []
  {
    Tables([], [], [], [], 1, 1, 1, 1, 0)
  }

  function UserKey(u: User): int { u.id }
  function StoryKey(s: StoryRow): int { s.id }
  function SectionKey(s: SectionRow): int { s.id }
  function SectionTime(s: SectionRow): int { s.createdAt }
  function PhotoKey(p: PhotoRow): int { p.id }

  predicate HasSection(sections: seq<SectionRow>, id: Id) {
    exists s :: s in sections && s.id == id
  }

  predicate HasStory(stories: seq<StoryRow>, id: Id) {
    exists s :: s in stories && s.id == id
  }

  predicate HasPhoto(photos: seq<PhotoRow>, id: Id) {
    exists p :: p in photos && p.id == id
  }

  /** The integrity constraints the database maintains: positive ids below
      each counter, increasing in insertion order (hence unique); unique
      usernames; sections created at increasing times before `clock`; and
      every photo belongs to an existing section (the foreign key). */
  ghost predicate ValidTables(t: Tables) {
    && t.nextUserId > 0 && t.nextStoryId > 0 && t.nextSectionId > 0 && t.nextPhotoId > 0
    && (forall u :: u in t.users ==> 0 < u.id < t.nextUserId)
    && (forall s :: s in t.stories ==> 0 < s.id < t.nextStoryId)
    && (forall s :: s in t.sections ==> 0 < s.id < t.nextSectionId && s.createdAt < t.clock)
    && (forall p :: p in t.photos ==> 0 < p.id < t.nextPhotoId)
    && StrictlyIncreasing(t.users, UserKey)
    && StrictlyIncreasing(t.stories, StoryKey)
    && StrictlyIncreasing(t.sections, SectionKey)
    && StrictlyIncreasing(t.sections, SectionTime)
    && StrictlyIncreasing(t.photos, PhotoKey)
    && (forall a, b :: a in t.users && b in t.users && a.username == b.username ==> a == b)
    && (forall p :: p in t.photos ==> HasSection(t.sections, p.photoSectionId))
  }

  lemma EmptyTablesValid()
    ensures ValidTables(EmptyTables())
  {
  }

  /** Appending a row whose key exceeds every existing key keeps the keys increasing. */
  lemma AppendIncreasing<T>(s: seq<T>, x: T, key: T -> int)
    requires StrictlyIncreasing(s, key)
    requires forall i :: 0 <= i < |s| ==> key(s[i]) < key(x)
    ensures StrictlyIncreasing(s + [x], key)
  {
    var r := s + [x];
    forall i, j | 0 <= i < j < |r| ensures key(r[i]) < key(r[j]) {
      if j < |s| {
        assert r[i] == s[i] && r[j] == s[j];
      } else {
        assert r[i] == s[i];
      }
    }
  }

  // ---------------------------------------------------------------- lookups

  /** `findUnique({ where: { username } })`. */
  function FindUserByName(users: seq<User>, name: string): (r: Option<User>)
    ensures r.Some? ==> r.value in users && r.value.username == name
    ensures r.None? <==> forall u :: u in users ==> u.username != name
  {
    if users == [] then None
    else if users[0].username == name then Some(users[0])
    else FindUserByName(users[1..], name)
  }

  /** `findUnique({ where: { id } })` on users. */
  function FindUserById(users: seq<User>, id: Id): (r: Option<User>)
    ensures r.Some? ==> r.value in users && r.value.id == id
    ensures r.None? <==> forall u :: u in users ==> u.id != id
  {
    if users == [] then None
    else if users[0].id == id then Some(users[0])
    else FindUserById(users[1..], id)
  }

  /** `findUnique({ where: { id } })` on sections. */
  function FindSection(sections: seq<SectionRow>, id: Id): (r: Option<SectionRow>)
    ensures r.Some? ==> r.value in sections && r.value.id == id
    ensures r.None? <==> !HasSection(sections, id)
  {
    if sections == [] then None
    else if sections[0].id == id then Some(sections[0])
    else FindSection(sections[1..], id)
  }

  /** `findUnique({ where: { id } })` on stories. */
  function FindStory(stories: seq<StoryRow>, id: Id): (r: Option<StoryRow>)
    ensures r.Some? ==> r.value in stories && r.value.id == id
    ensures r.None? <==> !HasStory(stories, id)
  {
    if stories == [] then None
    else if stories[0].id == id then Some(stories[0])
    else FindStory(stories[1..], id)
  }

  /** The photos of one section, in table order. */
  function PhotosOf(photos: seq<PhotoRow>, sectionId: Id): (r: seq<PhotoRow>)
    ensures forall p :: p in r <==> p in photos && p.photoSectionId == sectionId
  {
    Filter(photos, (p: PhotoRow) => p.photoSectionId == sectionId)
  }

  /** A section row with its photos attached. */
  function View(t: Tables, s: SectionRow): (v: SectionView)
    ensures v.id == s.id && v.title == s.title && v.createdAt == s.createdAt
    ensures forall p :: p in v.photos <==> p in t.photos && p.photoSectionId == s.id
  {
    SectionView(s.id, s.title, s.createdAt, PhotosOf(t.photos, s.id))
  }

  // -------------------------------------------------------------- mutations

  /** `create` on users: a row with the next id. */
  function InsertUser(t: Tables, username: string, password: string): (r: (Tables, User))
    ensures r.1 == User(t.nextUserId, username, password)
    ensures r.0 == t.(users := t.users + [r.1], nextUserId := t.nextUserId + 1)
  {
    var u := User(t.nextUserId, username, password);
    (t.(users := t.users + [u], nextUserId := t.nextUserId + 1), u)
  }

  lemma InsertUserValid(t: Tables, username: string, password: string)
    requires ValidTables(t)
    requires FindUserByName(t.users, username).None?
    ensures ValidTables(InsertUser(t, username, password).0)
  {
    var u := InsertUser(t, username, password).1;
    AppendIncreasing(t.users, u, UserKey);
  }

  /** `create` on stories. */
  function InsertStory(t: Tables, title: string, content: string): (r: (Tables, StoryRow))
    ensures r.1 == StoryRow(t.nextStoryId, title, content)
    ensures r.0 == t.(stories := t.stories + [r.1], nextStoryId := t.nextStoryId + 1)
  {
    var s := StoryRow(t.nextStoryId, title, content);
    (t.(stories := t.stories + [s], nextStoryId := t.nextStoryId + 1), s)
  }

  lemma InsertStoryValid(t: Tables, title: string, content: string)
    requires ValidTables(t)
    ensures ValidTables(InsertStory(t, title, content).0)
  {
    AppendIncreasing(t.stories, InsertStory(t, title, content).1, StoryKey);
  }

  /** `create` on sections: the next id, created now. */
  function InsertSection(t: Tables, title: string): (r: (Tables, SectionRow))
    ensures r.1 == SectionRow(t.nextSectionId, title, t.clock)
    ensures r.0 == t.(sections := t.sections + [r.1], nextSectionId := t.nextSectionId + 1,
                      clock := t.clock + 1)
  {
    var s := SectionRow(t.nextSectionId, title, t.clock);
    (t.(sections := t.sections + [s], nextSectionId := t.nextSectionId + 1, clock := t.clock + 1), s)
  }

  lemma InsertSectionValid(t: Tables, title: string)
    requires ValidTables(t)
    ensures ValidTables(InsertSection(t, title).0)
  {
    var r := InsertSection(t, title);
    AppendIncreasing(t.sections, r.1, SectionKey);
    AppendIncreasing(t.sections, r.1, SectionTime);
    forall p | p in r.0.photos ensures HasSection(r.0.sections, p.photoSectionId) {
      var s :| s in t.sections && s.id == p.photoSectionId;
      assert s in r.0.sections;
    }
  }

  /** `create` on photos. */
  function InsertPhoto(t: Tables, url: string, sectionId: Id): (r: (Tables, PhotoRow))
    ensures r.1 == PhotoRow(t.nextPhotoId, url, sectionId)
    ensures r.0 == t.(photos := t.photos + [r.1], nextPhotoId := t.nextPhotoId + 1)
  {
    var p := PhotoRow(t.nextPhotoId, url, sectionId);
    (t.(photos := t.photos + [p], nextPhotoId := t.nextPhotoId + 1), p)
  }

  lemma InsertPhotoValid(t: Tables, url: string, sectionId: Id)
    requires ValidTables(t)
    requires HasSection(t.sections, sectionId)
    ensures ValidTables(InsertPhoto(t, url, sectionId).0)
  {
    AppendIncreasing(t.photos, InsertPhoto(t, url, sectionId).1, PhotoKey);
  }

  /** `update` on sections: the row with `id` gets the new title; ids,
      creation times, order and every other row stay as they were. */
  function RetitleSection(sections: seq<SectionRow>, id: Id, title: string): (r: seq<SectionRow>)
    ensures |r| == |sections|
    ensures forall i :: 0 <= i < |r| ==>
              r[i].id == sections[i].id && r[i].createdAt == sections[i].createdAt &&
              r[i].title == (if sections[i].id == id then title else sections[i].title)
  {
    if sections == [] then []
    else [if sections[0].id == id then sections[0].(title := title) else sections[0]]
         + RetitleSection(sections[1..], id, title)
  }

  /** Rewriting rows without touching their keys keeps the keys increasing. */
  lemma SameKeysIncreasing<T>(a: seq<T>, b: seq<T>, key: T -> int)
    requires StrictlyIncreasing(a, key)
    requires |a| == |b| && forall i :: 0 <= i < |a| ==> key(a[i]) == key(b[i])
    ensures StrictlyIncreasing(b, key)
  {
  }

  /** Replacing the section table keeps the store valid when the new table
      satisfies the section constraints and still holds every photo's section. */
  lemma SectionsReplacedValid(t: Tables, s: seq<SectionRow>)
    requires ValidTables(t)
    requires forall x :: x in s ==> 0 < x.id < t.nextSectionId && x.createdAt < t.clock
    requires StrictlyIncreasing(s, SectionKey) && StrictlyIncreasing(s, SectionTime)
    requires forall p :: p in t.photos ==> HasSection(s, p.photoSectionId)
    ensures ValidTables(t.(sections := s))
  {
  }

  lemma RetitleKeepsRows(sections: seq<SectionRow>, id: Id, title: string, bound: int, clock: int)
    requires forall x :: x in sections ==> 0 < x.id < bound && x.createdAt < clock
    ensures forall x :: x in RetitleSection(sections, id, title) ==> 0 < x.id < bound && x.createdAt < clock
    ensures forall sid :: HasSection(sections, sid) ==> HasSection(RetitleSection(sections, id, title), sid)
  {
    var s := RetitleSection(sections, id, title);
    forall x | x in s ensures 0 < x.id < bound && x.createdAt < clock {
      var i :| 0 <= i < |s| && s[i] == x;
      assert sections[i] in sections;
    }
    forall sid | HasSection(sections, sid) ensures HasSection(s, sid) {
      var y :| y in sections && y.id == sid;
      var i :| 0 <= i < |sections| && sections[i] == y;
      assert s[i] in s;
    }
  }

  lemma RetitleSectionValid(t: Tables, id: Id, title: string)
    requires ValidTables(t)
    ensures ValidTables(t.(sections := RetitleSection(t.sections, id, title)))
  {
    var s := RetitleSection(t.sections, id, title);
    SameKeysIncreasing(t.sections, s, SectionKey);
    SameKeysIncreasing(t.sections, s, SectionTime);
    RetitleKeepsRows(t.sections, id, title, t.nextSectionId, t.clock);
    SectionsReplacedValid(t, s);
  }

  /** The fields an `update` writes: a field left `undefined` in `data`
      (here `None`) keeps its stored value. */
  function Revised(row: StoryRow, title: Option<string>, content: Option<string>): (r: StoryRow)
    ensures r.id == row.id
    ensures r.title == (if title.Some? then title.value else row.title)
    ensures r.content == (if content.Some? then content.value else row.content)
  {
    row.(title := if title.Some? then title.value else row.title,
         content := if content.Some? then content.value else row.content)
  }

  /** `update` on stories: the given fields of the row with `id`. */
  function ReviseStory(stories: seq<StoryRow>, id: Id, title: Option<string>, content: Option<string>)
    : (r: seq<StoryRow>)
    ensures |r| == |stories|
    ensures forall i :: 0 <= i < |r| ==>
              r[i] == (if stories[i].id == id then Revised(stories[i], title, content) else stories[i])
  {
    if stories == [] then []
    else [if stories[0].id == id then Revised(stories[0], title, content) else stories[0]]
         + ReviseStory(stories[1..], id, title, content)
  }

  lemma ReviseStoryValid(t: Tables, id: Id, title: Option<string>, content: Option<string>)
    requires ValidTables(t)
    ensures ValidTables(t.(stories := ReviseStory(t.stories, id, title, content)))
  {
    var s := ReviseStory(t.stories, id, title, content);
    SameKeysIncreasing(t.stories, s, StoryKey);
    forall x | x in s ensures 0 < x.id < t.nextStoryId {
      var i :| 0 <= i < |s| && s[i] == x;
      assert t.stories[i] in t.stories;
    }
  }

  /** `delete` on sections, with the schema's cascade: the section and
      every photo that belongs to it disappear; the rest keep their order. */
  function RemoveSection(t: Tables, id: Id): (r: Tables)
    ensures forall s :: s in r.sections <==> s in t.sections && s.id != id
    ensures forall p :: p in r.photos <==> p in t.photos && p.photoSectionId != id
    ensures r.users == t.users && r.stories == t.stories
  {
    t.(sections := Filter(t.sections, (s: SectionRow) => s.id != id),
       photos := Filter(t.photos, (p: PhotoRow) => p.photoSectionId != id))
  }

  lemma RemoveSectionValid(t: Tables, id: Id)
    requires ValidTables(t)
    ensures ValidTables(RemoveSection(t, id))
  {
    var r := RemoveSection(t, id);
    FilterPreservesIncreasing(t.sections, (s: SectionRow) => s.id != id, SectionKey);
    FilterPreservesIncreasing(t.sections, (s: SectionRow) => s.id != id, SectionTime);
    FilterPreservesIncreasing(t.photos, (p: PhotoRow) => p.photoSectionId != id, PhotoKey);
    forall p | p in r.photos ensures HasSection(r.sections, p.photoSectionId) {
      var s :| s in t.sections && s.id == p.photoSectionId;
      assert s in r.sections;
    }
  }

  /** `delete` on photos: only the photo with that id disappears. */
  function RemovePhoto(t: Tables, id: Id): (r: Tables)
    ensures forall p :: p in r.photos <==> p in t.photos && p.id != id
    ensures r == t.(photos := r.photos)
  {
    t.(photos := Filter(t.photos, (p: PhotoRow) => p.id != id))
  }

  lemma RemovePhotoValid(t: Tables, id: Id)
    requires ValidTables(t)
    ensures ValidTables(RemovePhoto(t, id))
  {
    FilterPreservesIncreasing(t.photos, (p: PhotoRow) => p.id != id, PhotoKey);
  }

  // --------------------------------------------------------------- the ORM

  /** The Prisma client: every call throws while the database is unreachable
      and then changes nothing. Each call is its own statement, with no
      transaction around several calls. */
  class Database {
    var tables: Tables
    var reachable: bool

    ghost predicate Valid()
      reads this
    {
      ValidTables(tables)
    }

    constructor (reachable: bool)
      ensures Valid() && tables == EmptyTables() && this.reachable == reachable
    {
      tables := EmptyTables();
      this.reachable := reachable;
    }

    /** The connection comes up or goes down between two calls. */
    method SetReachable(up: bool)
      requires Valid()
      modifies this
      ensures Valid() && reachable == up && tables == old(tables)
    {
      reachable := up;
    }

    /** `findUnique({ where: { username } })`. A missing `username` is
        `undefined`, which Prisma drops, and a unique lookup with no key
        throws. */
    method FindUserByUsername(name: Option<string>) returns (r: Try<Option<User>>)
      ensures r == if reachable && name.Some? then Ok(FindUserByName(tables.users, name.value)) else Thrown
    {
      r := if reachable && name.Some? then Ok(FindUserByName(tables.users, name.value)) else Thrown;
    }

    method FindUniqueUser(id: Id) returns (r: Try<Option<User>>)
      ensures r == if reachable then Ok(FindUserById(tables.users, id)) else Thrown
    {
      r := if reachable then Ok(FindUserById(tables.users, id)) else Thrown;
    }

    /** `upsert({ where: { username }, update: {}, create })`: an existing
        user is returned untouched; otherwise one is created. */
    method UpsertUser(username: string, password: string) returns (r: Try<User>)
      requires Valid()
      modifies this
      ensures Valid() && reachable == old(reachable)
      ensures !reachable ==> r.Thrown? && tables == old(tables)
      ensures reachable && FindUserByName(old(tables).users, username).Some? ==>
                r == Ok(FindUserByName(old(tables).users, username).value) && tables == old(tables)
      ensures reachable && FindUserByName(old(tables).users, username).None? ==>
                r == Ok(InsertUser(old(tables), username, password).1) &&
                tables == InsertUser(old(tables), username, password).0
    {
      if !reachable {
        return Thrown;
      }
      var found := FindUserByName(tables.users, username);
      if found.Some? {
        return Ok(found.value);
      }
      InsertUserValid(tables, username, password);
      var created := InsertUser(tables, username, password);
      tables := created.0;
      r := Ok(created.1);
    }

    /** `story.findFirst()`: the first row in storage order. */
    method FindFirstStory() returns (r: Try<Option<StoryRow>>)
      ensures !reachable ==> r.Thrown?
      ensures reachable ==> r == Ok(if tables.stories == [] then None else Some(tables.stories[0]))
    {
      if !reachable {
        return Thrown;
      }
      r := Ok(if tables.stories == [] then None else Some(tables.stories[0]));
    }

    method CreateStory(title: string, content: string) returns (r: Try<StoryRow>)
      requires Valid()
      modifies this
      ensures Valid() && reachable == old(reachable)
      ensures !reachable ==> r.Thrown? && tables == old(tables)
      ensures reachable ==> r == Ok(InsertStory(old(tables), title, content).1) &&
                            tables == InsertStory(old(tables), title, content).0
    {
      if !reachable {
        return Thrown;
      }
      InsertStoryValid(tables, title, content);
      var created := InsertStory(tables, title, content);
      tables := created.0;
      r := Ok(created.1);
    }

    /** `story.update({ where: { id }, data })`: throws when no row has that id. */
    method UpdateStory(id: Id, title: Option<string>, content: Option<string>) returns (r: Try<StoryRow>)
      requires Valid()
      modifies this
      ensures Valid() && reachable == old(reachable)
      ensures !(reachable && HasStory(old(tables).stories, id)) ==> r.Thrown? && tables == old(tables)
      ensures reachable && HasStory(old(tables).stories, id) ==>
                r == Ok(Revised(FindStory(old(tables).stories, id).value, title, content)) &&
                tables == old(tables).(stories := ReviseStory(old(tables).stories, id, title, content))
    {
      if !reachable || !HasStory(tables.stories, id) {
        return Thrown;
      }
      var before := FindStory(tables.stories, id).value;
      ReviseStoryValid(tables, id, title, content);
      tables := tables.(stories := ReviseStory(tables.stories, id, title, content));
      r := Ok(Revised(before, title, content));
    }

    /** `photoSection.findMany({ include: { photos: true }, orderBy: { createdAt: 'asc' } })`.
        Rows are kept in creation order, so the ordering is the table's own. */
    method FindManySections() returns (r: Try<seq<SectionView>>)
      ensures !reachable ==> r.Thrown?
      ensures reachable ==> r.Ok? && |r.value| == |tables.sections|
      ensures reachable ==> forall i :: 0 <= i < |r.value| ==> r.value[i] == View(tables, tables.sections[i])
    {
      if !reachable {
        return Thrown;
      }
      var t := tables;
      r := Ok(seq(|t.sections|, i requires 0 <= i < |t.sections| => View(t, t.sections[i])));
    }

    method FindUniqueSection(id: Id) returns (r: Try<Option<SectionView>>)
      ensures !reachable ==> r.Thrown?
      ensures reachable ==> r == Ok(match FindSection(tables.sections, id)
                                    case None => None
                                    case Some(s) => Some(View(tables, s)))
    {
      if !reachable {
        return Thrown;
      }
      var found := FindSection(tables.sections, id);
      r := Ok(match found case None => None case Some(s) => Some(View(tables, s)));
    }

    method FindFirstSection() returns (r: Try<Option<SectionRow>>)
      ensures !reachable ==> r.Thrown?
      ensures reachable ==> r == Ok(if tables.sections == [] then None else Some(tables.sections[0]))
    {
      if !reachable {
        return Thrown;
      }
      r := Ok(if tables.sections == [] then None else Some(tables.sections[0]));
    }

    method CreateSection(title: string) returns (r: Try<SectionRow>)
      requires Valid()
      modifies this
      ensures Valid() && reachable == old(reachable)
      ensures !reachable ==> r.Thrown? && tables == old(tables)
      ensures reachable ==> r == Ok(InsertSection(old(tables), title).1) &&
                            tables == InsertSection(old(tables), title).0
    {
      if !reachable {
        return Thrown;
      }
      InsertSectionValid(tables, title);
      var created := InsertSection(tables, title);
      tables := created.0;
      r := Ok(created.1);
    }

    /** `photoSection.update({ where: { id }, data: { title } })`: throws when
        no row has that id; a `title` left `undefined` is not written. */
    method UpdateSection(id: Id, title: Option<string>) returns (r: Try<SectionRow>)
      requires Valid()
      modifies this
      ensures Valid() && reachable == old(reachable)
      ensures !(reachable && HasSection(old(tables).sections, id)) ==> r.Thrown? && tables == old(tables)
      ensures reachable && HasSection(old(tables).sections, id) ==>
                var before := FindSection(old(tables).sections, id).value;
                r == Ok(if title.Some? then before.(title := title.value) else before) &&
                tables == if title.Some?
                          then old(tables).(sections := RetitleSection(old(tables).sections, id, title.value))
                          else old(tables)
    {
      if !reachable || !HasSection(tables.sections, id) {
        return Thrown;
      }
      var before := FindSection(tables.sections, id).value;
      if title.None? {
        return Ok(before);
      }
      RetitleSectionValid(tables, id, title.value);
      tables := tables.(sections := RetitleSection(tables.sections, id, title.value));
      r := Ok(before.(title := title.value));
    }

    /** `photoSection.delete({ where: { id } })`: throws when no row has that id. */
    method DeleteSection(id: Id) returns (r: Try<SectionRow>)
      requires Valid()
      modifies this
      ensures Valid() && reachable == old(reachable)
      ensures !(reachable && HasSection(old(tables).sections, id)) ==> r.Thrown? && tables == old(tables)
      ensures reachable && HasSection(old(tables).sections, id) ==>
                r.Ok? && r.value.id == id && tables == RemoveSection(old(tables), id)
    {
      if !reachable || !HasSection(tables.sections, id) {
        return Thrown;
      }
      var before := FindSection(tables.sections, id).value;
      RemoveSectionValid(tables, id);
      tables := RemoveSection(tables, id);
      r := Ok(before);
    }

    /** `photo.create`: the foreign key rejects a section id that does not exist. */
    method CreatePhoto(url: string, sectionId: Id) returns (r: Try<PhotoRow>)
      requires Valid()
      modifies this
      ensures Valid() && reachable == old(reachable)
      ensures !(reachable && HasSection(old(tables).sections, sectionId)) ==>
                r.Thrown? && tables == old(tables)
      ensures reachable && HasSection(old(tables).sections, sectionId) ==>
                r == Ok(InsertPhoto(old(tables), url, sectionId).1) &&
                tables == InsertPhoto(old(tables), url, sectionId).0
    {
      if !reachable || !HasSection(tables.sections, sectionId) {
        return Thrown;
      }
      InsertPhotoValid(tables, url, sectionId);
      var created := InsertPhoto(tables, url, sectionId);
      tables := created.0;
      r := Ok(created.1);
    }

    /** `photo.delete({ where: { id } })`: throws when no row has that id. */
    method DeletePhoto(id: Id) returns (r: Try<()>)
      requires Valid()
      modifies this
      ensures Valid() && reachable == old(reachable)
      ensures !(reachable && HasPhoto(old(tables).photos, id)) ==> r.Thrown? && tables == old(tables)
      ensures reachable && HasPhoto(old(tables).photos, id) ==>
                r.Ok? && tables == RemovePhoto(old(tables), id)
    {
      if !reachable || !HasPhoto(tables.photos, id) {
        return Thrown;
      }
      RemovePhotoValid(tables, id);
      tables := RemovePhoto(tables, id);
      r := Ok(());
    }
  }
}
