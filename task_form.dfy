/** The create/edit form of a task (frontend/src/components/TaskForm.js):
    its initial values, the title check on submit, and the payload it hands
    to the create or update request. */
module TaskForm {
  import opened Common
  import opened Store
  import opened TaskController

  /** The task being edited, as the API returns it. A missing field and an
      empty one read the same to the form (`field || default`), so both
      are "". `dueDate` is the ISO timestamp text. */
  datatype InitialTask = InitialTask(title: string, description: string, priority: string, dueDate: string)

  /** The form's fields; `dueDate` is the 'yyyy-mm-dd' text of the date
      input, "" when empty. */
  datatype FormState = FormState(title: string, description: string, priority: string, dueDate: string)

  /** `s.split('T')[0]`: the text before the first 'T', or all of it. */
  function BeforeT(s: string): (r: string)
    ensures r <= s
    ensures 'T' !in r
    ensures |r| < |s| ==> s[|r|] == 'T'
  {
    if s == [] then []
    else if s[0] == 'T' then []
    else [s[0]] + BeforeT(s[1..])
  }

  /** The date part of an ISO timestamp is what the date input shows. */
  lemma {:induction false} DatePartOfTimestamp(date: string, time: string)
    requires 'T' !in date
    ensures BeforeT(date + "T" + time) == date
  {
    if date != [] {
      assert (date + "T" + time)[1..] == date[1..] + "T" + time;
      assert date[0] in date;
      DatePartOfTimestamp(date[1..], time);
    }
  }

  function OrDefault(s: string, default: string): string
  {
    if s != "" then s else default
  }

  /** The form's opening values: empty for a new task, priority 'medium'
      unless the task has one, and the date part of its due date. */
  function InitialState(init: Option<InitialTask>): (s: FormState)
    ensures init.None? ==> s == FormState("", "", "medium", "")
    ensures s.priority != ""
    ensures init.Some? ==> 'T' !in s.dueDate && s.dueDate <= init.value.dueDate
  {
    match init
    case None => FormState("", "", "medium", "")
    case Some(t) => FormState(t.title, t.description, OrDefault(t.priority, "medium"), BeforeT(t.dueDate))
  }

  /** What onSubmit receives; `dueDate` is the parsed date, None for null. */
  datatype Payload = Payload(title: string, description: string, priority: string, dueDate: Option<int>)

  datatype Submission = Rejected(error: string) | Submitted(payload: Payload)

  /** handleSubmit: a title that trims to nothing is refused with 'Title is
      required' and nothing is sent; otherwise all four fields go out, an
      empty date as null. `parseDate` stands for `new Date(text)`. */
  function Submit(s: FormState, parseDate: string -> int): (r: Submission)
    ensures r.Rejected? <==> IsBlank(s.title)
    ensures r.Rejected? ==> r.error == "Title is required"
    ensures r.Submitted? ==>
              && r.payload.title == s.title && r.payload.description == s.description
              && r.payload.priority == s.priority
              && (r.payload.dueDate.None? <==> s.dueDate == "")
              && (s.dueDate != "" ==> r.payload.dueDate == Some(parseDate(s.dueDate)))
  {
    TrimCharacterization(s.title);
    if Trim(s.title) == "" then Rejected("Title is required")
    else Submitted(Payload(s.title, s.description, s.priority, if s.dueDate != "" then Some(parseDate(s.dueDate)) else None))
  }

  /** How updateTask reads the payload of an edit: every field is present,
      the due date as null when the form's date was empty. */
  function AsUpdate(p: Payload): TaskPatch
  {
    TaskPatch(p.title, Given(p.description), p.priority,
              if p.dueDate.Some? then Given(p.dueDate.value) else Null, None, None)
  }

  /** Saving an edit with the date input emptied clears the stored due
      date; with a date it stores that date. Title and description take
      the form's values; completion and folder are kept. */
  lemma EditSetsDueDate(t: Task, s: FormState, parseDate: string -> int)
    requires !IsBlank(s.title)
    ensures Submit(s, parseDate).Submitted?
    ensures var after := ApplyPatch(t, AsUpdate(Submit(s, parseDate).payload));
            && (s.dueDate == "" ==> after.dueDate == None)
            && (s.dueDate != "" ==> after.dueDate == Some(parseDate(s.dueDate)))
            && after.title == s.title && after.description == Some(s.description)
            && after.completed == t.completed && after.folderId == t.folderId
  {
    TrimCharacterization(s.title);
    assert s.title != "";
  }

  /** Opening the form on a task and saving it unchanged keeps the task's
      title, description and completion; a task whose title is blank
      cannot be saved this way. */
  lemma EditUnchanged(t: Task, init: InitialTask, parseDate: string -> int)
    requires init.title == t.title && init.priority == t.priority
    requires t.description.Some? && init.description == t.description.value
    requires !IsBlank(t.title) && t.priority != ""
    ensures var s := InitialState(Some(init));
            && Submit(s, parseDate).Submitted?
            && var after := ApplyPatch(t, AsUpdate(Submit(s, parseDate).payload));
               && after.title == t.title && after.description == t.description
               && after.priority == t.priority && after.completed == t.completed
  {
    TrimCharacterization(t.title);
    assert t.title != "";
  }
}
