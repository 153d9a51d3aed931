/**
 * The new-task form: its field values, the client-side title check, the
 * request body built from the fields (trimmed title and description, parsed
 * tags) and what happens to the fields after the request succeeds or fails.
 * Turning the date input into a timestamp is the parameter `toTimestamp`.
 */
module TaskFormView {
  import opened Wrappers
  import opened Ascii
  import opened TaskSchema
  import opened Http
  import opened TaskRoutes

  const TitleRequiredError: string := "Title is required"
  /** The message shown when the failure carries no message of its own. */
  const CreateFailedFallback: string := "Failed to create task"

  /** Trimmed, non-empty pieces, in order; trimming adds no comma. */
  function CleanPieces(pieces: seq<string>): (r: seq<string>)
    ensures |r| <= |pieces|
    ensures forall k :: 0 <= k < |r| ==> r[k] != "" && Unpadded(r[k])
    ensures (forall j :: 0 <= j < |pieces| ==> ',' !in pieces[j]) ==> forall k :: 0 <= k < |r| ==> ',' !in r[k]
  {
    if pieces == [] then []
    else
      var rest := CleanPieces(pieces[1..]);
      var head := Trim(pieces[0]);
      assert ',' in head ==> ',' in pieces[0] by {
        if ',' in head { TrimKeepsChars(pieces[0], ','); }
      }
      if head == "" then rest
      else
        var r := [head] + rest;
        assert forall k :: 1 <= k < |r| ==> r[k] == rest[k - 1];
        r
  }

  /** One piece becomes its trimmed text, or nothing when that is empty. */
  lemma CleanPiecesOne(p: string)
    ensures CleanPieces([p]) == if Trim(p) == "" then [] else [Trim(p)]
  {
    assert [p][1..] == [];
  }

  /** Pieces are cleaned one by one, in order. */
  lemma {:induction false} CleanPiecesAppend(x: seq<string>, y: seq<string>)
    ensures CleanPieces(x + y) == CleanPieces(x) + CleanPieces(y)
  {
    if x == [] {
      assert x + y == y;
    } else {
      assert (x + y)[0] == x[0] && (x + y)[1..] == x[1..] + y;
      CleanPiecesAppend(x[1..], y);
    }
  }

  /** `tags.split(",").map((tag) => tag.trim()).filter((tag) => tag)`. */
  function ParseTags(text: string): (tags: seq<string>)
    ensures forall k :: 0 <= k < |tags| ==> tags[k] != "" && Unpadded(tags[k]) && ',' !in tags[k]
  {
    CleanPieces(Split(text, ','))
  }

  /** Text without a comma is one tag, trimmed, or none when it is blank. */
  lemma ParseTagsOnePiece(text: string)
    requires ',' !in text
    ensures ParseTags(text) == if Trim(text) == "" then [] else [Trim(text)]
  {
    SplitNoSep(text, ',');
    CleanPiecesOne(text);
  }

  /**
   * The tags of a text are those of the part before its first comma followed
   * by those of the part after it: together with `ParseTagsOnePiece`, every
   * comma-separated piece is trimmed, blank ones are dropped, and the order
   * is kept.
   */
  lemma ParseTagsAtComma(first: string, rest: string)
    requires ',' !in first
    ensures ParseTags(first + "," + rest) == ParseTags(first) + ParseTags(rest)
  {
    assert first + "," + rest == first + [','] + rest;
    SplitAtFirst(first, rest, ',');
    SplitNoSep(first, ',');
    CleanPiecesAppend([first], Split(rest, ','));
  }

  /** An empty tag field sends no tags. */
  lemma ParseTagsEmpty()
    ensures ParseTags("") == []
  {
    assert Split("", ',') == [""];
    assert Trim("") == "";
  }

  lemma {:induction false} CleanPiecesOfClean(tags: seq<string>)
    requires forall k :: 0 <= k < |tags| ==> tags[k] != "" && Unpadded(tags[k])
    ensures CleanPieces(tags) == tags
  {
    if tags != [] {
      CleanPiecesOfClean(tags[1..]);
    }
  }

  /**
   * Tags that are non-empty, unpadded and comma-free come back unchanged
   * from the comma-joined text: parsing inverts joining.
   */
  lemma ParseTagsRoundTrip(tags: seq<string>)
    requires |tags| >= 1
    requires forall k :: 0 <= k < |tags| ==> tags[k] != "" && Unpadded(tags[k]) && ',' !in tags[k]
    ensures ParseTags(Join(tags, ',')) == tags
  {
    SplitJoin(tags, ',');
    CleanPiecesOfClean(tags);
  }

  /** The JSON body `handleSubmit` posts to `/tasks`. */
  function BuildRequest(title: string, description: string, priority: Priority, dueDate: string,
                        tags: string, toTimestamp: string -> int): (body: CreateBody)
    ensures body.title == Some(Trim(title)) && body.description == Some(Trim(description))
    ensures body.priority == Some(PriorityName(priority))
    ensures body.dueDate.None? <==> dueDate == ""
    ensures dueDate != "" ==> body.dueDate == Some(toTimestamp(dueDate))
    ensures body.tags == Some(ParseTags(tags))
    ensures body.status.None? && body.userId.None?
  {
    CreateBody(
      title := Some(Trim(title)),
      description := Some(Trim(description)),
      priority := Some(PriorityName(priority)),
      dueDate := if dueDate == "" then None else Some(toTimestamp(dueDate)),
      tags := Some(ParseTags(tags)),
      status := None,
      userId := None)
  }

  /**
   * Whatever passes the form's check is accepted by the server: with the
   * store up, the request creates a task with the trimmed title and
   * description, the chosen priority and the parsed tags.
   */
  lemma FormRequestAccepted(ts: seq<Task>, nextId: TaskId, owner: UserId, title: string, description: string,
                            priority: Priority, dueDate: string, tags: string, toTimestamp: string -> int,
                            now: int)
    requires Trim(title) != ""
    ensures var body := BuildRequest(title, description, priority, dueDate, tags, toTimestamp);
      var (r, ts', _) := CreateSpec(ts, nextId, owner, body, now, None);
      && r.status == 201 && r.body.TaskJson?
      && ts' == ts + [r.body.task]
      && r.body.task.title == Trim(title) && r.body.task.description == Trim(description)
      && r.body.task.priority == priority && r.body.task.tags == ParseTags(tags)
      && r.body.task.userId == owner
  {
    var body := BuildRequest(title, description, priority, dueDate, tags, toTimestamp);
    assert ParsePriority(PriorityName(priority)) == Some(priority);
    CreateOutcome(ts, nextId, owner, body, now, None);
  }

  /** The form refuses every non-empty blank title, which the server itself would store. */
  lemma FormStricterThanServer(ts: seq<Task>, nextId: TaskId, owner: UserId, title: string, now: int)
    requires title != "" && AllSpace(title)
    ensures TitleError(title) == Some(TitleRequiredError)
    ensures CreateSpec(ts, nextId, owner, CreateBody(Some(title), None, None, None, None, None, None), now, None).0.status == 201
  {
  }

  /** The client-side check `!title.trim()`: the error to show, if any. */
  function TitleError(title: string): (e: Option<string>)
    ensures e.Some? <==> AllSpace(title)
    ensures e.Some? ==> e.value == TitleRequiredError
  {
    if Trim(title) == "" then Some(TitleRequiredError) else None
  }

  /** How the `apiCall` of a submit ended. */
  datatype ApiOutcome =
    | Created
      /** The request threw; `message` is `err.message` when it is an `Error`. */
    | Failed(message: Option<string>)

  /** The form's state: its inputs, the loading flag and the error banner. */
  datatype FormState = FormState(
    title: string, description: string, priority: Priority, dueDate: string, tags: string,
    loading: bool, error: string)

  /** The state `useState` starts from, and `resetForm` returns the inputs to. */
  const Blank := FormState("", "", Medium, "", "", false, "")

  /**
   * `handleSubmit` on values: the new state, the body posted (if any) and
   * whether `onTaskCreated` was called.
   */
  function SubmitSpec(st: FormState, toTimestamp: string -> int, outcome: ApiOutcome)
    : (r: (FormState, Option<CreateBody>, bool))
    ensures AllSpace(st.title) ==> r == (st.(error := TitleRequiredError), None, false)
    ensures !AllSpace(st.title) ==>
      && r.1 == Some(BuildRequest(st.title, st.description, st.priority, st.dueDate, st.tags, toTimestamp))
      && !r.0.loading
      && r.2 == outcome.Created?
    ensures !AllSpace(st.title) && outcome.Created? ==> r.0 == Blank
    ensures !AllSpace(st.title) && outcome.Failed? ==>
      r.0 == st.(loading := false, error := outcome.message.GetOr(CreateFailedFallback))
  {
    match TitleError(st.title)
    case Some(e) => (st.(error := e), None, false)
    case None =>
      var body := BuildRequest(st.title, st.description, st.priority, st.dueDate, st.tags, toTimestamp);
      match outcome
      case Created => (Blank, Some(body), true)
      case Failed(message) =>
        (st.(loading := false, error := message.GetOr(CreateFailedFallback)), Some(body), false)
  }

  class TaskForm {
    var title: string
    var description: string
    var priority: Priority
    var dueDate: string
    var tags: string
    var loading: bool
    var error: string

    function State(): FormState
      reads this
    {
      FormState(title, description, priority, dueDate, tags, loading, error)
    }

    constructor ()
      ensures State() == Blank
    {
      title, description, priority, dueDate, tags := "", "", Medium, "", "";
      loading, error := false, "";
    }

    /** The five setters run after a successful request: the inputs return to their start values. */
    method ClearInputs()
      modifies this
      ensures State() == Blank.(loading := old(loading), error := old(error))
    {
      title, description, priority, dueDate, tags := "", "", Medium, "", "";
    }

    /**
     * `handleSubmit`. `sent` is the body posted, if any; `created` tells
     * whether `onTaskCreated` was called.
     */
    method Submit(toTimestamp: string -> int, outcome: ApiOutcome) returns (sent: Option<CreateBody>, created: bool)
      modifies this
      ensures (State(), sent, created) == SubmitSpec(old(State()), toTimestamp, outcome)
    {
      ghost var st := State();
      error := "";
      var invalid := TitleError(title);
      if invalid.Some? {
        error := invalid.value;
        return None, false;
      }
      var body := BuildRequest(title, description, priority, dueDate, tags, toTimestamp);
      assert body == BuildRequest(st.title, st.description, st.priority, st.dueDate, st.tags, toTimestamp);
      loading := true;
      sent := Some(body);
      match outcome {
        case Created =>
          ClearInputs();
          loading := false;
          created := true;
        case Failed(message) =>
          error := message.GetOr(CreateFailedFallback);
          loading := false;
          created := false;
      }
    }
  }
}
