/** The client's interaction logic (src/App.tsx): the component's state
    fields and the handlers that change them. Network answers enter as a
    boolean `ok`; the data URL a file read yields enters as an opaque string. */
module HuntApp {
  import opened HuntTypes
  import HuntStore

  /** The two tabs of the main view. */
  datatype Tab = TasksTab | FeedTab

  /** The JSON body `handleSubmit` posts to `/api/upload`. */
  datatype UploadRequest = UploadRequest(taskId: int, userName: string, photoData: string, caption: string)

  /** The title the plus shortcut looks for. */
  const GeneralDiscovery: string := "General Discovery"

  /** JavaScript truthiness of a `string | null` value: null and '' are falsy. */
  predicate Truthy(s: Option<string>)
  {
    s.Some? && s.value != ""
  }

  /** `ts.find(t => t.title === title)`: the first task with that title. */
  function FindByTitle(ts: seq<Task>, title: string): (r: Option<Task>)
    ensures r.Some? <==> exists i | 0 <= i < |ts| :: ts[i].title == title
    ensures r.Some? ==> exists i | 0 <= i < |ts| ::
      ts[i] == r.value && ts[i].title == title && forall k | 0 <= k < i :: ts[k].title != title
  {
    if ts == [] then None
    else if ts[0].title == title then Some(ts[0])
    else
      var r := FindByTitle(ts[1..], title);
      assert forall i | 1 <= i < |ts| :: ts[i] == ts[1..][i - 1];
      r
  }

  /** The task the plus shortcut opens the upload form for:
      `tasks.find(t => t.title === 'General Discovery') || tasks[0]`. */
  function PlusChoice(ts: seq<Task>): (r: Option<Task>)
    ensures r.None? <==> ts == []
    ensures r.Some? ==> r.value in ts
    ensures (exists i | 0 <= i < |ts| :: ts[i].title == GeneralDiscovery) ==>
      r.Some? && r.value.title == GeneralDiscovery
    ensures (forall i | 0 <= i < |ts| :: ts[i].title != GeneralDiscovery) && ts != [] ==>
      r == Some(ts[0])
    ensures FindByTitle(ts, GeneralDiscovery).Some? ==> r == FindByTitle(ts, GeneralDiscovery)
  {
    match FindByTitle(ts, GeneralDiscovery)
    case Some(t) => Some(t)
    case None => if ts == [] then None else Some(ts[0])
  }

  /** The guard of `handleSubmit`: a task is selected, the name is not empty
      and a photo has been read. */
  predicate SubmitAllowed(selected: Option<Task>, userName: string, photo: Option<string>)
  {
    selected.Some? && userName != "" && Truthy(photo)
  }

  /** The request `handleSubmit` sends, if its guard lets it send one. */
  function SubmitRequest(selected: Option<Task>, userName: string, photo: Option<string>,
                         caption: string): (r: Option<UploadRequest>)
    ensures r.Some? <==> SubmitAllowed(selected, userName, photo)
    ensures r.Some? ==>
      r.value.taskId == selected.value.id && r.value.userName == userName &&
      Some(r.value.photoData) == photo && r.value.caption == caption
  {
    if SubmitAllowed(selected, userName, photo)
    then Some(UploadRequest(selected.value.id, userName, photo.value, caption))
    else None
  }

  /** A request the client sends always fills the server's NOT NULL columns
      and has a non-empty name; when the selected task is one the server
      holds, it also meets the foreign key, so the server stores it. */
  lemma ClientRequestAccepted(serverTasks: seq<Task>, selected: Option<Task>, userName: string,
                              photo: Option<string>, caption: string)
    requires SubmitRequest(selected, userName, photo, caption).Some?
    ensures var q := SubmitRequest(selected, userName, photo, caption).value;
      HuntStore.NotNullHolds(Some(q.userName), Some(q.photoData)) && q.userName != "" &&
      (selected.value in serverTasks ==> HuntStore.TaskRefHolds(serverTasks, Some(q.taskId)))
  {
    var q := SubmitRequest(selected, userName, photo, caption).value;
    if selected.value in serverTasks {
      var j :| 0 <= j < |serverTasks| && serverTasks[j] == selected.value;
      assert serverTasks[j].id == q.taskId;
    }
  }

  /** On the catalogue a fresh server seeds, the plus shortcut picks
      "General Discovery", the sixth task, whose id is 6. */
  lemma PlusPicksSeededGeneralDiscovery()
    ensures PlusChoice(HuntStore.SeedTasks(0)) ==
      Some(Task(6, GeneralDiscovery, HuntStore.InitialTasks[5].description, 5))
  {
    var ts := HuntStore.SeedTasks(0);
    assert ts[5].title == GeneralDiscovery;
    assert forall i | 0 <= i < 5 :: ts[i].title != GeneralDiscovery;
    var r := FindByTitle(ts, GeneralDiscovery);
    var i :| 0 <= i < |ts| && ts[i] == r.value && ts[i].title == GeneralDiscovery &&
      forall k | 0 <= k < i :: ts[k].title != GeneralDiscovery;
    assert i == 5;
  }

  /** The React component's state. */
  class App {
    var tasks: seq<Task>
    var activeTab: Tab
    var isUploading: bool
    var selectedTask: Option<Task>
    var userName: string
    var caption: string
    var photoPreview: Option<string>

    /** The upload form is only ever open with a task selected. */
    ghost predicate Valid()
      reads this
    {
      isUploading ==> selectedTask.Some?
    }

    /** The initial `useState` values. */
    constructor ()
      ensures Valid()
      ensures tasks == [] && activeTab == TasksTab && !isUploading && selectedTask == None
      ensures userName == "" && caption == "" && photoPreview == None
    {
      tasks := [];
      activeTab := TasksTab;
      isUploading := false;
      selectedTask := None;
      userName := "";
      caption := "";
      photoPreview := None;
    }

    /** `setTasks(data)` once `/api/tasks` has answered. */
    method TasksLoaded(data: seq<Task>)
      requires Valid()
      modifies this`tasks
      ensures Valid() && tasks == data
    {
      tasks := data;
    }

    /** The header's plus button: opens the form for "General Discovery", or
        for the first task when there is none so titled; with no task at all
        nothing happens. */
    method PlusClick()
      requires Valid()
      modifies this`selectedTask, this`isUploading
      ensures Valid()
      ensures tasks == [] ==> selectedTask == old(selectedTask) && isUploading == old(isUploading)
      ensures tasks != [] ==> selectedTask == PlusChoice(tasks) && isUploading
    {
      var general := PlusChoice(tasks);
      if general.Some? {
        selectedTask := general;
        isUploading := true;
      }
    }

    /** A task card's camera button. */
    method CameraClick(task: Task)
      requires Valid()
      modifies this`selectedTask, this`isUploading
      ensures Valid() && selectedTask == Some(task) && isUploading
    {
      selectedTask := Some(task);
      isUploading := true;
    }

    /** The form's close button: hides the form, keeps the selection. */
    method CloseForm()
      requires Valid()
      modifies this`isUploading
      ensures Valid() && !isUploading
    {
      isUploading := false;
    }

    /** The two tab buttons. */
    method ChooseTab(tab: Tab)
      requires Valid()
      modifies this`activeTab
      ensures Valid() && activeTab == tab
    {
      activeTab := tab;
    }

    /** Typing in the name field. */
    method EditUserName(text: string)
      requires Valid()
      modifies this`userName
      ensures Valid() && userName == text
    {
      userName := text;
    }

    /** Typing in the caption field. */
    method EditCaption(text: string)
      requires Valid()
      modifies this`caption
      ensures Valid() && caption == text
    {
      caption := text;
    }

    /** The file reader has produced the photo's data URL. */
    method PhotoLoaded(dataUrl: string)
      requires Valid()
      modifies this`photoPreview
      ensures Valid() && photoPreview == Some(dataUrl)
    {
      photoPreview := Some(dataUrl);
    }

    /** `disabled={!photoPreview || !userName}`, negated: the submit button
        is enabled. While the form is open, it is enabled exactly when
        pressing it sends a request. */
    function CanPressSubmit(): (r: bool)
      reads this
      requires Valid()
      ensures isUploading ==> (r <==> SubmitRequest(selectedTask, userName, photoPreview, caption).Some?)
    {
      Truthy(photoPreview) && userName != ""
    }

    /** The submit guard passes exactly when the button is enabled and a task
        is selected; the button alone does not ensure a selection. */
    lemma SubmitGuardIsButtonPlusSelection()
      requires Valid()
      ensures SubmitAllowed(selectedTask, userName, photoPreview) <==>
        selectedTask.Some? && CanPressSubmit()
    {
    }

    /** `handleSubmit`: when the guard fails, no request and no change; else
        the request is posted, and only if the server answers ok is the form
        closed and cleared and the feed tab shown. The name is kept. */
    method Submit(ok: bool) returns (request: Option<UploadRequest>)
      requires Valid()
      modifies this`isUploading, this`selectedTask, this`photoPreview, this`caption, this`activeTab
      ensures Valid()
      ensures request == SubmitRequest(old(selectedTask), userName, old(photoPreview), old(caption))
      ensures request.None? || !ok ==>
        isUploading == old(isUploading) && selectedTask == old(selectedTask) &&
        photoPreview == old(photoPreview) && caption == old(caption) && activeTab == old(activeTab)
      ensures request.Some? && ok ==>
        !isUploading && selectedTask == None && photoPreview == None && caption == "" &&
        activeTab == FeedTab
    {
      if !SubmitAllowed(selectedTask, userName, photoPreview) {
        return None;
      }
      request := Some(UploadRequest(selectedTask.value.id, userName, photoPreview.value, caption));
      if ok {
        isUploading := false;
        selectedTask := None;
        photoPreview := None;
        caption := "";
        activeTab := FeedTab;
      }
    }
  }
}
