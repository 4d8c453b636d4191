/** The story page's client state (frontend/src/pages/Story.tsx): the
    shown text, the editor's buffer and three flags. Each handler is a
    method of `StoryPage` whose new state is a function of the old one and
    of the service's answer; those functions carry the properties. */
module StoryPage {
  import opened Common
  import Store
  import StoryController

  /** `storyContent`, `isLoading`, `isEditing`, `editContent`, `isSaving`. */
  datatype PageState = PageState(storyContent: string, isLoading: bool, isEditing: bool,
                                 editContent: string, isSaving: bool)

  /** The `useState` initial values. */
  const Initial := PageState("", true, false, "", false)

  /** `fetchStory`: the fetched content is shown; a failure keeps what was
      shown; loading ends on both paths and nothing else changes. */
  function Fetched(s: PageState, answer: Try<string>): (r: PageState)
    ensures !r.isLoading
    ensures answer.Ok? ==> r.storyContent == answer.value
    ensures answer.Thrown? ==> r.storyContent == s.storyContent
    ensures r.(storyContent := s.storyContent, isLoading := s.isLoading) == s
  {
    s.(storyContent := if answer.Ok? then answer.value else s.storyContent, isLoading := false)
  }

  /** `handleEditClick`: the buffer starts from the shown text and the
      dialog opens. */
  function EditClicked(s: PageState): (r: PageState)
    ensures r.isEditing && r.editContent == s.storyContent
    ensures r.storyContent == s.storyContent && r.isSaving == s.isSaving && r.isLoading == s.isLoading
  {
    s.(editContent := s.storyContent, isEditing := true)
  }

  /** The editor's `onChange`: only the buffer changes. */
  function Typed(s: PageState, text: string): (r: PageState)
    ensures r.editContent == text && r.(editContent := s.editContent) == s
  {
    s.(editContent := text)
  }

  /** `handleSaveStory`: a save the server accepts shows the buffer and
      closes the dialog; a failed one keeps both; `isSaving` ends false on
      either path and the buffer is kept. */
  function Saved(s: PageState, answer: Try<()>): (r: PageState)
    ensures !r.isSaving
    ensures answer.Ok? ==> r.storyContent == s.editContent && !r.isEditing
    ensures answer.Thrown? ==> r.storyContent == s.storyContent && r.isEditing == s.isEditing
    ensures r.editContent == s.editContent && r.isLoading == s.isLoading
  {
    if answer.Ok? then s.(storyContent := s.editContent, isEditing := false, isSaving := false)
    else s.(isSaving := false)
  }

  /** The Cancel button (and closing the dialog): the dialog closes and
      the shown text stays. */
  function Cancelled(s: PageState): (r: PageState)
    ensures !r.isEditing && r.(isEditing := s.isEditing) == s
  {
    s.(isEditing := false)
  }

  /** Opening the editor and cancelling leaves the shown text and the
      flags as they were; only the buffer remembers the visit. */
  lemma EditThenCancel(s: PageState)
    requires !s.isEditing
    ensures Cancelled(EditClicked(s)) == s.(editContent := s.storyContent)
  {
  }

  /** Editing to `text` and saving successfully shows exactly `text`. */
  lemma EditTypeSave(s: PageState, text: string)
    ensures var r := Saved(Typed(EditClicked(s), text), Ok(()));
            r.storyContent == text && !r.isEditing && !r.isSaving
  {
  }

  /** Saving without typing shows what was already shown. */
  lemma SaveUnchangedBuffer(s: PageState)
    ensures Saved(EditClicked(s), Ok(())).storyContent == s.storyContent
  {
  }

  /** A failed save keeps the buffer, so trying again and succeeding ends
      where a first successful save would have. */
  lemma RetryAfterFailure(s: PageState)
    ensures Saved(Saved(s, Thrown), Ok(())) == Saved(s, Ok(()))
  {
  }

  /** On a fresh store the first visit shows the default story the server
      creates. */
  lemma FirstVisitShowsDefault()
    ensures Fetched(Initial, Ok(StoryController.FirstOrCreate(Store.EmptyTables()).1.content)).storyContent
              == StoryController.DefaultContent
  {
  }

  class StoryPage {
    var storyContent: string
    var isLoading: bool
    var isEditing: bool
    var editContent: string
    var isSaving: bool

    /** The five state cells as one value. */
    function State(): PageState
      reads this
    {
      PageState(storyContent, isLoading, isEditing, editContent, isSaving)
    }

    constructor ()
      ensures State() == Initial
    {
      storyContent := "";
      isLoading := true;
      isEditing := false;
      editContent := "";
      isSaving := false;
    }

    method FetchStory(answer: Try<string>)
      modifies this
      ensures State() == Fetched(old(State()), answer)
    {
      isLoading := true;
      if answer.Ok? {
        storyContent := answer.value;
      }
      isLoading := false;
    }

    method HandleEditClick()
      modifies this
      ensures State() == EditClicked(old(State()))
    {
      editContent := storyContent;
      isEditing := true;
    }

    method OnEditorChange(text: string)
      modifies this
      ensures State() == Typed(old(State()), text)
    {
      editContent := text;
    }

    method HandleSaveStory(answer: Try<()>)
      modifies this
      ensures State() == Saved(old(State()), answer)
    {
      isSaving := true;
      if answer.Ok? {
        storyContent := editContent;
        isEditing := false;
      }
      isSaving := false;
    }

    method Cancel()
      modifies this
      ensures State() == Cancelled(old(State()))
    {
      isEditing := false;
    }
  }
}
