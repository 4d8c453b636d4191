/** The story handlers (backend/src/controllers/story.controller.ts): the
    single story is read, created with default text the first time, and
    updated by id. */
module StoryController {
  import opened Common
  import opened Http
  import opened Store

  const DefaultTitle := "Nossa História"
  const DefaultContent := "Escreva sua história aqui..."
  const FetchError := "Erro ao buscar história"
  const UpdateError := "Erro ao atualizar história"

  /** What `getStory` does to the tables and which row it answers with:
      the first story, or a freshly created default one when there is none. */
  function FirstOrCreate(t: Tables): (r: (Tables, StoryRow))
    ensures t.stories != [] ==> r.0 == t && r.1 == t.stories[0]
    ensures t.stories == [] ==>
              r.1.title == DefaultTitle && r.1.content == DefaultContent &&
              r.0.stories == [r.1] &&
              r.0 == InsertStory(t, DefaultTitle, DefaultContent).0
  {
    if t.stories == [] then InsertStory(t, DefaultTitle, DefaultContent) else (t, t.stories[0])
  }

  /** Only the story table and its counter can change, and by at most one
      default row. */
  lemma FirstOrCreateChangesOnlyStories(t: Tables)
    ensures var t1 := FirstOrCreate(t).0;
            t1.users == t.users && t1.sections == t.sections && t1.photos == t.photos &&
            t1.clock == t.clock && |t1.stories| == (if t.stories == [] then 1 else |t.stories|)
    ensures FirstOrCreate(t).1 == FirstOrCreate(t).0.stories[0]
  {
  }

  /** Two consecutive reads return the same story, and the second one
      creates nothing. */
  lemma FirstOrCreateTwice(t: Tables)
    ensures var (t1, s1) := FirstOrCreate(t);
            FirstOrCreate(t1) == (t1, s1)
  {
    var (t1, s1) := FirstOrCreate(t);
    assert t1.stories != [] && t1.stories[0] == s1;
  }

  /** `getStory`. */
  method GetStory(db: Database) returns (r: Reply<StoryRow>)
    requires db.Valid()
    modifies db
    ensures db.Valid() && db.reachable == old(db.reachable)
    ensures !db.reachable ==> r == Message(500, FetchError) && db.tables == old(db.tables)
    ensures db.reachable ==>
              r == Json(200, FirstOrCreate(old(db.tables)).1) && db.tables == FirstOrCreate(old(db.tables)).0
  {
    var first := db.FindFirstStory();
    match first
    case Thrown =>
      r := Message(500, FetchError);
    case Ok(Some(story)) =>
      r := Json(200, story);
    case Ok(None) =>
      var created := db.CreateStory(DefaultTitle, DefaultContent);
      match created
      case Thrown => r := Message(500, FetchError);
      case Ok(story) => r := Json(200, story);
  }

  /** Two requests in a row: the second answers with the same story and
      leaves the store as the first left it. */
  method GetStoryTwice(db: Database) returns (first: Reply<StoryRow>, second: Reply<StoryRow>)
    requires db.Valid()
    modifies db
    ensures db.reachable ==> first == second && db.tables == FirstOrCreate(old(db.tables)).0
  {
    first := GetStory(db);
    second := GetStory(db);
    FirstOrCreateTwice(old(db.tables));
  }

  /** After an update, looking the story up by its id finds the row with
      the new fields written and the omitted ones as they were. */
  lemma {:induction false} ReviseThenFind(stories: seq<StoryRow>, id: Id, title: Option<string>, content: Option<string>)
    requires HasStory(stories, id)
    ensures FindStory(ReviseStory(stories, id, title, content), id) ==
              Some(Revised(FindStory(stories, id).value, title, content))
  {
    var r := ReviseStory(stories, id, title, content);
    if stories[0].id != id {
      var s :| s in stories && s.id == id;
      assert s in stories[1..];
      assert r[1..] == ReviseStory(stories[1..], id, title, content);
      ReviseThenFind(stories[1..], id, title, content);
    }
  }

  /** The story page sends `{ content }` alone: the stored title survives. */
  lemma ContentOnlyUpdateKeepsTitle(stories: seq<StoryRow>, id: Id, content: string)
    requires HasStory(stories, id)
    ensures var found := FindStory(ReviseStory(stories, id, None, Some(content)), id);
            found.Some? && found.value.content == content &&
            found.value.title == FindStory(stories, id).value.title
  {
    ReviseThenFind(stories, id, None, Some(content));
  }

  /** `updateStory`: the fields present in the body change in that one
      story; a missing id makes the store throw, hence 500. */
  method UpdateStory(db: Database, id: Id, title: Option<string>, content: Option<string>)
    returns (r: Reply<StoryRow>)
    requires db.Valid()
    modifies db
    ensures db.Valid() && db.reachable == old(db.reachable)
    ensures !(db.reachable && HasStory(old(db.tables).stories, id)) ==>
              r == Message(500, UpdateError) && db.tables == old(db.tables)
    ensures db.reachable && HasStory(old(db.tables).stories, id) ==>
              r.Json? && r.code == 200 && r.body.id == id &&
              FindStory(db.tables.stories, id) == Some(r.body) &&
              db.tables == old(db.tables).(stories := ReviseStory(old(db.tables).stories, id, title, content))
  {
    ghost var before := db.tables.stories;
    var updated := db.UpdateStory(id, title, content);
    match updated
    case Thrown => r := Message(500, UpdateError);
    case Ok(story) =>
      ReviseThenFind(before, id, title, content);
      r := Json(200, story);
  }
}
