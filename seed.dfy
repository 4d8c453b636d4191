/** The seed script (backend/prisma/seed.ts): an `admin` user, a first
    story and a first photo section, each created only when missing.
    Hashing the password is an oracle that may throw. */
module Seed {
  import opened Common
  import opened Store

  const AdminUsername := "admin"
  const AdminPassword := "admin123"
  /** The bcrypt cost factor handed to `hash`. */
  const SaltRounds := 10
  const InitialStoryTitle := "Minha História"
  const InitialStoryContent := "Esta é a história inicial do SideLudi. Você pode editá-la através da interface."
  const InitialSectionTitle := "Galeria Principal"

  /** `upsert({ where: { username: 'admin' }, update: {}, create })`. */
  function EnsureAdmin(t: Tables, hashed: string): Tables {
    if FindUserByName(t.users, AdminUsername).Some? then t else InsertUser(t, AdminUsername, hashed).0
  }

  function EnsureStory(t: Tables): Tables {
    if t.stories == [] then InsertStory(t, InitialStoryTitle, InitialStoryContent).0 else t
  }

  function EnsureSection(t: Tables): Tables {
    if t.sections == [] then InsertSection(t, InitialSectionTitle).0 else t
  }

  /** Each step touches only its own table (and its counter). */
  lemma StepsKeepOtherTables(t: Tables, hashed: string)
    ensures EnsureAdmin(t, hashed).stories == t.stories
    ensures EnsureAdmin(t, hashed).sections == t.sections
    ensures EnsureStory(t).sections == t.sections
  {
  }

  /** The store after `main` has run to the end, given the hash it computed. */
  function SeedTables(t: Tables, hashed: string): Tables {
    EnsureSection(EnsureStory(EnsureAdmin(t, hashed)))
  }

  /** Looking up a name that only the appended row has finds that row. */
  lemma {:induction false} FindAppendedUser(users: seq<User>, u: User)
    requires FindUserByName(users, u.username).None?
    ensures FindUserByName(users + [u], u.username) == Some(u)
  {
    if users != [] {
      assert (users + [u])[1..] == users[1..] + [u];
      FindAppendedUser(users[1..], u);
    }
  }

  /** Afterwards there is an admin, a story and a section. An admin that
      existed keeps its record (`update: {}`); otherwise exactly one admin
      with the computed hash is added. Nothing is ever removed. */
  lemma SeedOutcome(t: Tables, hashed: string)
    ensures var s := SeedTables(t, hashed);
            FindUserByName(s.users, AdminUsername).Some? && s.stories != [] && s.sections != []
    ensures FindUserByName(t.users, AdminUsername).Some? ==>
              SeedTables(t, hashed).users == t.users
    ensures FindUserByName(t.users, AdminUsername).None? ==>
              SeedTables(t, hashed).users == t.users + [User(t.nextUserId, AdminUsername, hashed)] &&
              FindUserByName(SeedTables(t, hashed).users, AdminUsername) ==
                Some(User(t.nextUserId, AdminUsername, hashed))
    ensures t.stories != [] ==> SeedTables(t, hashed).stories == t.stories
    ensures t.stories == [] ==>
              SeedTables(t, hashed).stories == [StoryRow(t.nextStoryId, InitialStoryTitle, InitialStoryContent)]
    ensures t.sections != [] ==> SeedTables(t, hashed).sections == t.sections
    ensures t.sections == [] ==>
              SeedTables(t, hashed).sections == [SectionRow(t.nextSectionId, InitialSectionTitle, t.clock)]
    ensures SeedTables(t, hashed).photos == t.photos
  {
    if FindUserByName(t.users, AdminUsername).None? {
      FindAppendedUser(t.users, User(t.nextUserId, AdminUsername, hashed));
    }
  }

  /** Running the seed a second time, whatever hash it computes then,
      leaves the store as the first run left it. */
  lemma SeedIdempotent(t: Tables, h1: string, h2: string)
    ensures SeedTables(SeedTables(t, h1), h2) == SeedTables(t, h1)
  {
    SeedOutcome(t, h1);
  }

  lemma SeedValid(t: Tables, hashed: string)
    requires ValidTables(t)
    ensures ValidTables(SeedTables(t, hashed))
  {
    var t1 := EnsureAdmin(t, hashed);
    if FindUserByName(t.users, AdminUsername).None? {
      InsertUserValid(t, AdminUsername, hashed);
    }
    var t2 := EnsureStory(t1);
    if t1.stories == [] {
      InsertStoryValid(t1, InitialStoryTitle, InitialStoryContent);
    }
    if t2.sections == [] {
      InsertSectionValid(t2, InitialSectionTitle);
    }
  }

  /** The store after the first `n` of the seed's three steps (admin,
      story, section). */
  function SeedStage(t: Tables, hashed: string, n: nat): Tables {
    if n == 0 then t
    else if n == 1 then EnsureAdmin(t, hashed)
    else if n == 2 then EnsureStory(EnsureAdmin(t, hashed))
    else SeedTables(t, hashed)
  }

  /** A run that stopped after some steps is completed by running the seed
      again: once the admin exists, whatever hash the new run computes, the
      store ends as one uninterrupted run would have left it. */
  lemma ResumeAfterPartialSeed(t: Tables, h1: string, h2: string, n: nat)
    requires 1 <= n
    ensures SeedTables(SeedStage(t, h1, n), h2) == SeedTables(t, h1)
  {
    var t1 := EnsureAdmin(t, h1);
    if FindUserByName(t.users, AdminUsername).None? {
      FindAppendedUser(t.users, User(t.nextUserId, AdminUsername, h1));
    }
    assert FindUserByName(t1.users, AdminUsername).Some?;
    assert EnsureAdmin(t1, h2) == t1;
    var t2 := EnsureStory(t1);
    assert t2.users == t1.users;
    assert EnsureAdmin(t2, h2) == t2;
    assert EnsureStory(t2) == t2;
    SeedIdempotent(t, h1, h2);
  }

  /** The `upsert` step, as call number `k` of the run. */
  method SeedAdmin(db: Database, hashed: string, up: nat -> bool, k: nat) returns (ok: bool)
    requires db.Valid()
    modifies db
    ensures db.Valid() && ok == up(k)
    ensures db.tables == if ok then EnsureAdmin(old(db.tables), hashed) else old(db.tables)
  {
    db.SetReachable(up(k));
    var admin := db.UpsertUser(AdminUsername, hashed);
    ok := admin.Ok?;
  }

  /** The story step: `findFirst` as call `k`, then `create` as call
      `k + 1` when there is no story. */
  method SeedStory(db: Database, up: nat -> bool, k: nat) returns (ok: bool, next: nat)
    requires db.Valid()
    modifies db
    ensures db.Valid() && k < next <= k + 2
    ensures db.tables == if ok then EnsureStory(old(db.tables)) else old(db.tables)
    ensures up(k) && up(k + 1) ==> ok
    // The step fails exactly when the lookup fails, or when it found no
    // story and the create fails; the create is made only in that case.
    ensures ok <==> up(k) && (old(db.tables).stories != [] || up(k + 1))
    ensures next == if up(k) && old(db.tables).stories == [] then k + 2 else k + 1
  {
    next := k + 1;
    db.SetReachable(up(k));
    var story := db.FindFirstStory();
    if story.Thrown? {
      return false, next;
    }
    ok := true;
    if story.value.None? {
      db.SetReachable(up(next));
      var created := db.CreateStory(InitialStoryTitle, InitialStoryContent);
      next := next + 1;
      ok := created.Ok?;
    }
  }

  /** The section step: `findFirst` as call `k`, then `create` as call
      `k + 1` when there is no section. */
  method SeedSection(db: Database, up: nat -> bool, k: nat) returns (ok: bool)
    requires db.Valid()
    modifies db
    ensures db.Valid()
    ensures db.tables == if ok then EnsureSection(old(db.tables)) else old(db.tables)
    ensures up(k) && up(k + 1) ==> ok
    ensures ok <==> up(k) && (old(db.tables).sections != [] || up(k + 1))
  {
    db.SetReachable(up(k));
    var section := db.FindFirstSection();
    if section.Thrown? {
      return false;
    }
    ok := true;
    if section.value.None? {
      db.SetReachable(up(k + 1));
      var created := db.CreateSection(InitialSectionTitle);
      ok := created.Ok?;
    }
  }

  /** `main` followed by its `catch`. Each of the up to five store calls
      may fail on its own: `up(k)` says whether the database answers the
      call numbered `k` (from 0) of this run. Hashing or any call that
      throws ends the run with exit status 1, leaving the steps already
      done in place; otherwise the status is 0 with the seeded store. */
  method RunSeed(db: Database, hash: (string, int) -> Try<string>, up: nat -> bool) returns (exitCode: int)
    requires db.Valid()
    modifies db
    ensures db.Valid()
    ensures exitCode == 0 || exitCode == 1
    ensures hash(AdminPassword, SaltRounds).Thrown? ==> exitCode == 1 && db.tables == old(db.tables)
    ensures hash(AdminPassword, SaltRounds).Ok? ==>
              var h := hash(AdminPassword, SaltRounds).value;
              (exitCode == 0 ==> db.tables == SeedTables(old(db.tables), h)) &&
              (exitCode == 1 ==> exists n :: 0 <= n < 3 && db.tables == SeedStage(old(db.tables), h, n)) &&
              (!up(0) ==> exitCode == 1 && db.tables == old(db.tables)) &&
              ((forall k :: 0 <= k < 5 ==> up(k)) ==> exitCode == 0)
    // Which call fails decides the exit status and the steps left applied.
    // Calls are numbered in order: the upsert is 0, the story lookup 1, the
    // story create (made only on an empty story table) 2, then the section
    // lookup and create.
    ensures hash(AdminPassword, SaltRounds).Ok? ==>
              var h := hash(AdminPassword, SaltRounds).value;
              var t := old(db.tables);
              var storyOk := up(1) && (t.stories != [] || up(2));
              var j := if t.stories == [] then 3 else 2;
              var sectionOk := up(j) && (t.sections != [] || up(j + 1));
              (up(0) && !storyOk ==> exitCode == 1 && db.tables == SeedStage(t, h, 1)) &&
              (up(0) && storyOk && !sectionOk ==> exitCode == 1 && db.tables == SeedStage(t, h, 2)) &&
              (up(0) && storyOk && sectionOk ==> exitCode == 0 && db.tables == SeedTables(t, h))
  {
    var hashed := hash(AdminPassword, SaltRounds);
    if hashed.Thrown? {
      return 1;
    }
    ghost var t0 := db.tables;
    StepsKeepOtherTables(t0, hashed.value);
    StepsKeepOtherTables(EnsureAdmin(t0, hashed.value), hashed.value);
    ghost var storyOk := up(1) && (t0.stories != [] || up(2));
    ghost var j := if t0.stories == [] then 3 else 2;
    ghost var sectionOk := up(j) && (t0.sections != [] || up(j + 1));
    var ok := SeedAdmin(db, hashed.value, up, 0);
    if !ok {
      assert !up(0) && db.tables == SeedStage(t0, hashed.value, 0);
      return 1;
    }
    var next;
    ok, next := SeedStory(db, up, 1);
    if !ok {
      assert up(0) && !storyOk && db.tables == SeedStage(t0, hashed.value, 1);
      return 1;
    }
    assert storyOk && next == j;
    assert db.tables == SeedStage(t0, hashed.value, 2);
    ok := SeedSection(db, up, next);
    if !ok {
      assert up(0) && storyOk && !sectionOk && db.tables == SeedStage(t0, hashed.value, 2);
      return 1;
    }
    assert sectionOk && db.tables == SeedTables(t0, hashed.value);
    exitCode := 0;
  }
}
