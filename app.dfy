/** The top-level state of src/App.tsx and the handlers that change it. */
module App {

  /** `Service` (line 10): the view being shown. */
  datatype Service = Intro | PixStory | DreamLens | FlipBook

  /** `Tab` (line 11): the sidebar tab. */
  datatype Tab = PixStoryTab | DreamLensTab

  /** A tab names the view of the same name (the assignment at line 33 relies on that). */
  function TabView(tab: Tab): (view: Service)
    ensures view == PixStory || view == DreamLens
    ensures (view == PixStory) <==> tab.PixStoryTab?
  {
    match tab
    case PixStoryTab => PixStory
    case DreamLensTab => DreamLens
  }

  /** `prev.filter((_, i) => i !== index)` (line 28). */
  function FilterOutIndex(s: seq<string>, index: int): seq<string>
    decreases |s|
  {
    if s == [] then []
    else FilterOutIndex(s[..|s| - 1], index) + (if |s| - 1 != index then [s[|s| - 1]] else [])
  }

  /** The filter removes exactly position `index` when there is one, and changes nothing otherwise. */
  lemma {:induction false} FilterOutIndexRemoves(s: seq<string>, index: int)
    ensures 0 <= index < |s| ==> FilterOutIndex(s, index) == s[..index] + s[index + 1..]
    ensures !(0 <= index < |s|) ==> FilterOutIndex(s, index) == s
    decreases |s|
  {
    if s != [] {
      var init := s[..|s| - 1];
      FilterOutIndexRemoves(init, index);
      if index == |s| - 1 {
        assert s[..index] == init;
      } else if 0 <= index < |s| - 1 {
        assert init[..index] == s[..index];
        assert init[index + 1..] + [s[|s| - 1]] == s[index + 1..];
      } else {
        assert init + [s[|s| - 1]] == s;
      }
    }
  }

  /** What `renderContent` shows (lines 36-58). */
  datatype Page =
    | DreamLensPage
    | IntroPage(activeTab: Tab)
    | PixStoryPage(images: seq<string>, isEditing: bool)
    | FlipBookPage
    | UnknownViewPage

  class AppState {
    var images: seq<string>
    var currentView: Service
    var isEditing: bool
    var activeTab: Tab

    /** The initial state (lines 14-17). */
    constructor ()
      ensures images == [] && currentView == Intro && !isEditing && activeTab == PixStoryTab
    {
      images := [];
      currentView := Intro;
      isEditing := false;
      activeTab := PixStoryTab;
    }

    /** `handleImageUpload` (lines 19-21): the new image goes to the end. */
    method HandleImageUpload(newImage: string)
      modifies this`images
      ensures images == old(images) + [newImage]
      ensures images[..|old(images)|] == old(images) && images[|images| - 1] == newImage
    {
      images := images + [newImage];
    }

    /** `handleReorder` (lines 23-25): the list is replaced wholesale. */
    method HandleReorder(newOrder: seq<string>)
      modifies this`images
      ensures images == newOrder
    {
      images := newOrder;
    }

    /** `handleImageDelete` (lines 27-29). */
    method HandleImageDelete(index: int)
      modifies this`images
      ensures images == FilterOutIndex(old(images), index)
      ensures 0 <= index < |old(images)| ==> images == old(images)[..index] + old(images)[index + 1..]
      ensures !(0 <= index < |old(images)|) ==> images == old(images)
    {
      FilterOutIndexRemoves(images, index);
      images := FilterOutIndex(images, index);
    }

    /** `handleStartStory` (lines 31-34): editing starts and the active tab's view opens. */
    method HandleStartStory()
      modifies this`isEditing, this`currentView
      ensures isEditing && currentView == TabView(activeTab)
    {
      isEditing := true;
      currentView := TabView(activeTab);
    }

    /** `onEditingChange` (line 50) is `setIsEditing` itself. */
    method SetEditing(editing: bool)
      modifies this`isEditing
      ensures isEditing == editing
    {
      isEditing := editing;
    }

    /** `onDreamLens` (line 51). */
    method OpenDreamLens()
      modifies this`currentView
      ensures currentView == DreamLens
    {
      currentView := DreamLens;
    }

    /** `onFlipBook` (line 39). */
    method OpenFlipBook()
      modifies this`currentView
      ensures currentView == FlipBook
    {
      currentView := FlipBook;
    }

    /** The header button (lines 67-71): back to the intro with no images, not editing; the tab stays. */
    method HeaderClick()
      modifies this`currentView, this`images, this`isEditing
      ensures currentView == Intro && images == [] && !isEditing
    {
      currentView := Intro;
      images := [];
      isEditing := false;
    }

    /** A sidebar tab button (lines 90-93 and 111-114): the tab changes and the intro shows; images and editing stay. */
    method TabClick(tab: Tab)
      modifies this`activeTab, this`currentView
      ensures activeTab == tab && currentView == Intro
    {
      activeTab := tab;
      currentView := Intro;
    }

    /** `renderContent`: the page for the current view; the `default` branch is never taken. */
    function RenderContent(): (page: Page)
      reads this
      ensures !page.UnknownViewPage?
      ensures page.IntroPage? <==> currentView == Intro
      ensures page.PixStoryPage? <==> currentView == PixStory
      ensures page.IntroPage? ==> page.activeTab == activeTab
      ensures page.PixStoryPage? ==> page.images == images && page.isEditing == isEditing
    {
      match currentView
      case DreamLens => DreamLensPage
      case Intro => IntroPage(activeTab)
      case PixStory => PixStoryPage(images, isEditing)
      case FlipBook => FlipBookPage
    }
  }

  /**
   * From the start, the first page reachable by clicking "start" is the
   * active tab's: PixStory unless a tab click chose DreamLens.
   */
  method StartFromIntro(tab: Tab) returns (page: Page)
    ensures page == (if tab.PixStoryTab? then PixStoryPage([], true) else DreamLensPage)
  {
    var app := new AppState();
    app.TabClick(tab);
    app.HandleStartStory();
    page := app.RenderContent();
  }
}
