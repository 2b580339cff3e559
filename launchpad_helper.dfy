/** Model of launchpad_helper.py: the summary record built from a bug task,
    the canonical bug URL, the three lookups that validate a project, a
    series and a person, and the `LaunchpadAssistant` object whose current
    bug (`self.bug`) is created, loaded and updated.

    The remote service is seen only through a `Directory` of what exists
    (projects, series, people, bugs). The assistant keeps its own copy of
    that directory: saving a bug writes the bug back into it, so a later
    load sees the saved bug. */
module LaunchpadHelper {
  import opened Wrappers
  import opened Text

  datatype Person = Person(name: string)

  /** What a bug task is filed against: a project or one of its series. */
  datatype Target =
    | ProjectTarget(project: string)
    | SeriesTarget(project: string, series: string)

  datatype Task = Task(target: Target, assignee: Option<Person>, status: string, importance: string)

  /** A bug and its tasks; `tasks[0]` is the task the bug was filed with. */
  datatype Bug = Bug(id: nat, title: string, description: string, tags: seq<string>, tasks: seq<Task>)

  /** The flat record `collect_bug_information` returns. */
  datatype BugInfo = BugInfo(status: string, title: string, tags: string, assignee: string, importance: string)

  /** The entries of `bug_dict` that the assistant reads; the empty string
      stands for a value Python treats as false. */
  datatype BugDict = BugDict(
    project: string, series: string, assignee: string, title: string,
    description: string, tags: string, status: string, priority: string)

  /** The web roots `LPNET_WEB_ROOT`, `STAGING_WEB_ROOT` and
      `QASTAGING_WEB_ROOT` of the client library, taken as given. */
  datatype WebRoots = WebRoots(lpnet: string, staging: string, qastaging: string)

  /** What the remote service holds, as far as the lookups can tell:
      project names, (project, series) name pairs, user names and bugs by id. */
  datatype Directory = Directory(
    projects: set<string>, series: set<(string, string)>, people: set<string>, bugs: map<nat, Bug>)

  /** `LaunchpadAssistantError` with its message, or the `AttributeError`
      Python raises when an attribute the code reads was never set. */
  datatype Error = AssistantError(message: string) | AttributeError(attribute: string)

  /** Status and importance the service gives a task it creates. */
  const InitialStatus := "New"
  const InitialImportance := "Undecided"

  const DefaultServiceRoot := "production"

  predicate HasTasks(b: Bug) {
    |b.tasks| > 0
  }

  function TargetName(t: Target): string {
    match t
    case ProjectTarget(p) => p
    case SeriesTarget(p, s) => p + " " + s
  }

  /** The title the service reports for a bug task:
      `Bug #<id> in <target>: "<bug title>"`. */
  function TaskTitle(b: Bug, t: Task): string {
    "Bug #" + DecimalString(b.id) + " in " + TargetName(t.target) + ": \"" + b.title + "\""
  }

  /** `collect_bug_information(task)` where `task.bug` is `b`. */
  function CollectBugInformation(b: Bug, t: Task): (r: BugInfo)
    ensures r.status == t.status && r.importance == t.importance
    ensures r.title == TaskTitle(b, t)
    ensures r.tags == Join(b.tags)
    ensures r.assignee == (if t.assignee.Some? then t.assignee.value.name else "")
  {
    BugInfo(
      t.status,
      TaskTitle(b, t),
      Join(b.tags),
      if t.assignee.Some? then t.assignee.value.name else "",
      t.importance)
  }

  /** The summary loses nothing about the tags: its `tags` string splits back
      into the bug's tags whenever they are tags the service can hold (words). */
  lemma SummaryTagsRoundTrip(b: Bug, t: Task)
    requires AllWords(b.tags)
    ensures Split(CollectBugInformation(b, t).tags) == b.tags
  {
    SplitJoin(b.tags);
  }

  /** An empty `assignee` in the summary means the task has nobody assigned,
      for people whose names are not empty. */
  lemma SummaryAssigneeEmpty(b: Bug, t: Task)
    requires t.assignee.Some? ==> t.assignee.value.name != ""
    ensures CollectBugInformation(b, t).assignee == "" <==> t.assignee.None?
  {
  }

  /** `os.environ.get("APPORT_LAUNCHPAD_INSTANCE", "production")`. */
  function ServiceRoot(env: Option<string>): (r: string)
    ensures env.None? ==> r == DefaultServiceRoot
    ensures env.Some? ==> r == env.value
  {
    if env.Some? then env.value else DefaultServiceRoot
  }

  /** The web root chosen for a service root: the qastaging and staging roots
      for exactly those names, the production root for anything else. */
  function WebRoot(roots: WebRoots, serviceRoot: string): (r: string)
    ensures serviceRoot == "qastaging" ==> r == roots.qastaging
    ensures serviceRoot == "staging" ==> r == roots.staging
    ensures serviceRoot != "qastaging" && serviceRoot != "staging" ==> r == roots.lpnet
  {
    if serviceRoot == "qastaging" then roots.qastaging
    else if serviceRoot == "staging" then roots.staging
    else roots.lpnet
  }

  /** The bug URL `create_bug` and `update_bug` return: the web root followed
      by `bugs/` and the decimal id, from which the id can be read back. */
  function BugUrl(roots: WebRoots, serviceRoot: string, id: nat): (r: string)
    ensures |r| > |WebRoot(roots, serviceRoot)| + 5
    ensures r[..|WebRoot(roots, serviceRoot)|] == WebRoot(roots, serviceRoot)
    ensures r[|WebRoot(roots, serviceRoot)|..|WebRoot(roots, serviceRoot)| + 5] == "bugs/"
    ensures IsDecimal(r[|WebRoot(roots, serviceRoot)| + 5..])
    ensures DecimalValue(r[|WebRoot(roots, serviceRoot)| + 5..]) == id
    ensures r[|WebRoot(roots, serviceRoot)| + 5..] == DecimalString(id)
  {
    var root := WebRoot(roots, serviceRoot);
    var r := root + "bugs/" + DecimalString(id);
    DecimalRoundTrip(id);
    assert r[|root| + 5..] == DecimalString(id);
    r
  }

  /** Within one service environment, distinct bugs have distinct URLs. */
  lemma BugUrlInjective(roots: WebRoots, serviceRoot: string, a: nat, b: nat)
    requires BugUrl(roots, serviceRoot, a) == BugUrl(roots, serviceRoot, b)
    ensures a == b
  {
    var n := |WebRoot(roots, serviceRoot)| + 5;
    assert BugUrl(roots, serviceRoot, a)[n..] == BugUrl(roots, serviceRoot, b)[n..];
  }

  /** When the environment variable is unset, URLs point at production. */
  lemma DefaultEnvironmentIsProduction(roots: WebRoots, id: nat)
    ensures BugUrl(roots, ServiceRoot(None), id) == roots.lpnet + "bugs/" + DecimalString(id)
  {
  }

  /** `check_project_exist`: the project, or an error naming it. */
  function CheckProjectExist(dir: Directory, name: string): (r: Result<string, Error>)
    ensures r.Success? <==> name in dir.projects
    ensures r.Success? ==> r.value == name
    ensures r.Failure? ==> r.error == AssistantError(name + " launchpad project not found")
  {
    if name in dir.projects then Success(name)
    else Failure(AssistantError(name + " launchpad project not found"))
  }

  /** `check_series_exist`: the series of the project, or an error naming it. */
  function CheckSeriesExist(dir: Directory, project: string, name: string): (r: Result<Target, Error>)
    ensures r.Success? <==> (project, name) in dir.series
    ensures r.Success? ==> r.value == SeriesTarget(project, name)
    ensures r.Failure? ==> r.error == AssistantError(name + " series not found")
  {
    if (project, name) in dir.series then Success(SeriesTarget(project, name))
    else Failure(AssistantError(name + " series not found"))
  }

  /** `check_assignee_exist`: the person, or an error naming them. */
  function CheckAssigneeExist(dir: Directory, name: string): (r: Result<Person, Error>)
    ensures r.Success? <==> name in dir.people
    ensures r.Success? ==> r.value == Person(name)
    ensures r.Failure? ==> r.error == AssistantError(name + " launchpad user not found")
  {
    if name in dir.people then Success(Person(name))
    else Failure(AssistantError(name + " launchpad user not found"))
  }

  /** The bug `createBug` returns: the title, description and whitespace-split
      tags of the request, with one fresh task on the project. */
  function NewBug(id: nat, d: BugDict): (r: Bug)
    ensures r.id == id && r.title == d.title && r.description == d.description
    ensures r.tags == Split(d.tags) && AllWords(r.tags)
    ensures |r.tasks| == 1 && r.tasks[0] == Task(ProjectTarget(d.project), None, InitialStatus, InitialImportance)
  {
    Bug(id, d.title, d.description, Split(d.tags),
        [Task(ProjectTarget(d.project), None, InitialStatus, InitialImportance)])
  }

  /** The task configuration of `create_bug`: re-target the first task to the
      project if it points elsewhere, add an approved series task when a
      series was given, then set assignee (when given), status and
      importance on the last task. */
  function ConfigureTasks(
    b: Bug, project: string, series: Option<Target>, assignee: Option<Person>,
    status: string, importance: string): (r: Bug)
    requires HasTasks(b)
    ensures r.id == b.id && r.title == b.title && r.description == b.description && r.tags == b.tags
    ensures |r.tasks| == |b.tasks| + (if series.Some? then 1 else 0)
    ensures r.tasks[0].target == ProjectTarget(project)
    ensures series.Some? ==> r.tasks[|r.tasks| - 1].target == series.value
    ensures r.tasks[|r.tasks| - 1].status == status
    ensures r.tasks[|r.tasks| - 1].importance == importance
    ensures assignee.Some? ==> r.tasks[|r.tasks| - 1].assignee == assignee
    ensures assignee.None? && series.Some? ==> r.tasks[|r.tasks| - 1].assignee.None?
    ensures assignee.None? && series.None? ==> r.tasks[|r.tasks| - 1].assignee == b.tasks[|b.tasks| - 1].assignee
    ensures |r.tasks| > 1 ==> r.tasks[0] == b.tasks[0].(target := ProjectTarget(project))
    ensures series.None? && |b.tasks| > 1 ==> r.tasks[|r.tasks| - 1].target == b.tasks[|b.tasks| - 1].target
    ensures forall i :: 0 < i < |r.tasks| - 1 ==> r.tasks[i] == b.tasks[i]
  {
    var t0 := b.tasks[0];
    var retargeted := if t0.target != ProjectTarget(project) then b.tasks[0 := t0.(target := ProjectTarget(project))] else b.tasks;
    var nominated := if series.Some? then retargeted + [Task(series.value, None, InitialStatus, InitialImportance)] else retargeted;
    var last := nominated[|nominated| - 1];
    var updated := last.(
      assignee := if assignee.Some? then assignee else last.assignee,
      status := status,
      importance := importance);
    b.(tasks := nominated[|nominated| - 1 := updated])
  }

  /** The field writes of `update_bug`: each of assignee, status, importance
      (`priority`) and tags is written only when given, the first three on
      `tasks[0]` alone; everything else is left as it was. */
  function ApplyUpdate(b: Bug, assignee: Option<Person>, d: BugDict): (r: Bug)
    requires HasTasks(b)
    ensures r.id == b.id && r.title == b.title && r.description == b.description
    ensures r.tags == if d.tags == "" then b.tags else Split(d.tags)
    ensures |r.tasks| == |b.tasks| && r.tasks[1..] == b.tasks[1..]
    ensures r.tasks[0].target == b.tasks[0].target
    ensures r.tasks[0].assignee == if assignee.Some? then assignee else b.tasks[0].assignee
    ensures r.tasks[0].status == if d.status == "" then b.tasks[0].status else d.status
    ensures r.tasks[0].importance == if d.priority == "" then b.tasks[0].importance else d.priority
  {
    var t := b.tasks[0];
    var t1 := if assignee.Some? then t.(assignee := assignee) else t;
    var t2 := if d.status != "" then t1.(status := d.status) else t1;
    var t3 := if d.priority != "" then t2.(importance := d.priority) else t2;
    var tags := if d.tags != "" then Split(d.tags) else b.tags;
    b.(tags := tags, tasks := b.tasks[0 := t3])
  }

  /** Applying the same partial update twice is the same as applying it once. */
  lemma ApplyUpdateIdempotent(b: Bug, assignee: Option<Person>, d: BugDict)
    requires HasTasks(b)
    ensures ApplyUpdate(ApplyUpdate(b, assignee, d), assignee, d) == ApplyUpdate(b, assignee, d)
  {
    var once := ApplyUpdate(b, assignee, d);
    var twice := ApplyUpdate(once, assignee, d);
    assert twice.tasks[0] == once.tasks[0];
    assert twice.tasks == [twice.tasks[0]] + twice.tasks[1..];
    assert once.tasks == [once.tasks[0]] + once.tasks[1..];
  }

  /** A request with nothing to write leaves the bug as it was. */
  lemma ApplyUpdateEmpty(b: Bug, d: BugDict)
    requires HasTasks(b)
    requires d.status == "" && d.priority == "" && d.tags == ""
    ensures ApplyUpdate(b, None, d) == b
  {
    var r := ApplyUpdate(b, None, d);
    assert r.tasks == [r.tasks[0]] + r.tasks[1..];
    assert b.tasks == [b.tasks[0]] + b.tasks[1..];
  }

  /** A successfully created bug, read back through `collect_bug_information`
      on its last task: the status and importance of the request, the
      request's tags joined by single spaces (splitting back to the same
      tokens), and the assignee's name or "". */
  lemma CreatedBugSummary(
    id: nat, d: BugDict, series: Option<Target>, assignee: Option<Person>)
    requires assignee.Some? ==> assignee.value == Person(d.assignee)
    ensures var b := ConfigureTasks(NewBug(id, d), d.project, series, assignee, d.status, d.priority);
            var info := CollectBugInformation(b, b.tasks[|b.tasks| - 1]);
            && info.status == d.status && info.importance == d.priority
            && info.tags == Join(Split(d.tags)) && Split(info.tags) == Split(d.tags)
            && info.assignee == (if assignee.Some? then d.assignee else "")
  {
    SplitJoin(Split(d.tags));
  }

  /** What the service guarantees about the bugs it holds: each is stored
      under its own id and has at least the task it was filed with. */
  predicate WellFormed(bugs: map<nat, Bug>) {
    forall id :: id in bugs ==> HasTasks(bugs[id]) && bugs[id].id == id
  }

  /** `LaunchpadAssistant`: a session on one service environment, its view of
      the service and the bug it currently works on (`self.bug`). */
  class Assistant {
    var dir: Directory
    const serviceRoot: string
    const roots: WebRoots
    var bug: Option<Bug>

    /** The directory is well formed and the current bug is the bug the
        service holds under its id (every write is saved before returning). */
    ghost predicate Valid()
      reads this
    {
      && WellFormed(dir.bugs)
      && (bug.Some? ==> bug.value.id in dir.bugs && dir.bugs[bug.value.id] == bug.value)
    }

    /** Logging in: no bug is loaded yet. */
    constructor (dir: Directory, env: Option<string>, roots: WebRoots)
      requires WellFormed(dir.bugs)
      ensures Valid()
      ensures this.dir == dir && this.serviceRoot == ServiceRoot(env) && this.roots == roots
      ensures bug == None
    {
      this.dir := dir;
      this.serviceRoot := ServiceRoot(env);
      this.roots := roots;
      bug := None;
    }

    /** `search_bugs(project, cid)`, with `found` the tasks the service's
      search returned (`None` when the search call failed). */
    method SearchBugs(project: string, cid: string, found: Option<seq<(Bug, Task)>>)
      returns (r: Result<seq<(Bug, BugInfo)>, Error>)
      ensures project !in dir.projects ==> r == Failure(AssistantError(project + " launchpad project not found"))
      ensures project in dir.projects && found.None? ==> r == Failure(AssistantError("Failed to search bugs by " + cid))
      ensures project in dir.projects && found.Some? ==>
                && r.Success? && |r.value| == |found.value|
                && forall i :: 0 <= i < |found.value| ==>
                     r.value[i] == (found.value[i].0, CollectBugInformation(found.value[i].0, found.value[i].1))
    {
      var _ :- CheckProjectExist(dir, project);
      if found.None? {
        return Failure(AssistantError("Failed to search bugs by " + cid));
      }
      var tasks := found.value;
      r := Success(seq(|tasks|, i requires 0 <= i < |tasks| => (tasks[i].0, CollectBugInformation(tasks[i].0, tasks[i].1))));
    }

    /** `get_bug_information(bug_id)`: load the bug as the current bug and
        summarise its first task; an unknown id leaves the current bug alone. */
    method GetBugInformation(bugId: nat) returns (r: Result<(Bug, BugInfo), Error>)
      requires Valid()
      modifies this
      ensures Valid()
      ensures dir == old(dir)
      ensures bugId in dir.bugs ==>
                && bug == Some(dir.bugs[bugId])
                && r == Success((dir.bugs[bugId], CollectBugInformation(dir.bugs[bugId], dir.bugs[bugId].tasks[0])))
      ensures bugId !in dir.bugs ==>
                && bug == old(bug)
                && r == Failure(AssistantError(DecimalString(bugId) + " launchpad bug not found"))
    {
      if bugId !in dir.bugs {
        return Failure(AssistantError(DecimalString(bugId) + " launchpad bug not found"));
      }
      bug := Some(dir.bugs[bugId]);
      var b := bug.value;
      r := Success((b, CollectBugInformation(b, b.tasks[0])));
    }

    /** `create_bug(bug_dict)`, with `newId` the fresh id the service assigns
        to a bug it creates. All three lookups run before anything is written;
        a failed one leaves the current bug and the service untouched. When a
        bug is already loaded the code reads `self.lp_title`, which is never
        set, and fails. A created bug is saved under its id. */
    method CreateBug(d: BugDict, newId: nat) returns (r: Result<(Bug, string), Error>)
      requires Valid()
      requires newId !in dir.bugs
      modifies this
      ensures Valid()
      ensures r.Failure? ==> bug == old(bug) && dir == old(dir)
      ensures d.project !in old(dir).projects ==>
                r == Failure(AssistantError(d.project + " launchpad project not found"))
      ensures d.project in old(dir).projects && d.series != "" && (d.project, d.series) !in old(dir).series ==>
                r == Failure(AssistantError(d.series + " series not found"))
      ensures d.project in old(dir).projects && (d.series == "" || (d.project, d.series) in old(dir).series)
              && d.assignee != "" && d.assignee !in old(dir).people ==>
                r == Failure(AssistantError(d.assignee + " launchpad user not found"))
      ensures d.project in old(dir).projects && (d.series == "" || (d.project, d.series) in old(dir).series)
              && (d.assignee == "" || d.assignee in old(dir).people) && old(bug).Some? ==>
                r == Failure(AttributeError("lp_title"))
      ensures r.Success? <==>
                && d.project in old(dir).projects && (d.series == "" || (d.project, d.series) in old(dir).series)
                && (d.assignee == "" || d.assignee in old(dir).people) && old(bug).None?
      ensures r.Success? ==>
                var created := ConfigureTasks(
                  NewBug(newId, d), d.project,
                  if d.series == "" then None else Some(SeriesTarget(d.project, d.series)),
                  if d.assignee == "" then None else Some(Person(d.assignee)),
                  d.status, d.priority);
                && bug == Some(created)
                && dir == old(dir).(bugs := old(dir).bugs[newId := created])
                && r.value == (created, BugUrl(roots, serviceRoot, newId))
    {
      var project :- CheckProjectExist(dir, d.project);
      var series: Option<Target> := None;
      if d.series != "" {
        var s :- CheckSeriesExist(dir, project, d.series);
        series := Some(s);
      }
      var assignee: Option<Person> := None;
      if d.assignee != "" {
        var a :- CheckAssigneeExist(dir, d.assignee);
        assignee := Some(a);
      }
      if bug.Some? {
        return Failure(AttributeError("lp_title"));
      }
      bug := Some(NewBug(newId, d));
      bug := Some(ConfigureTasks(bug.value, project, series, assignee, d.status, d.priority));
      dir := dir.(bugs := dir.bugs[newId := bug.value]);
      var url := BugUrl(roots, serviceRoot, bug.value.id);
      r := Success((bug.value, url));
    }

    /** `update_bug(bug_dict)`: a partial update of the current bug, saved
        under its id. Without a current bug the code fails on
        `None.bug_tasks`; an unknown assignee fails before anything is
        written. */
    method UpdateBug(d: BugDict) returns (r: Result<(Bug, string), Error>)
      requires Valid()
      modifies this
      ensures Valid()
      ensures r.Failure? ==> bug == old(bug) && dir == old(dir)
      ensures old(bug).None? ==> r == Failure(AttributeError("bug_tasks"))
      ensures old(bug).Some? && d.assignee != "" && d.assignee !in old(dir).people ==>
                r == Failure(AssistantError(d.assignee + " launchpad user not found"))
      ensures r.Success? <==> old(bug).Some? && (d.assignee == "" || d.assignee in old(dir).people)
      ensures r.Success? ==>
                var updated := ApplyUpdate(
                  old(bug).value, if d.assignee == "" then None else Some(Person(d.assignee)), d);
                && bug == Some(updated)
                && dir == old(dir).(bugs := old(dir).bugs[updated.id := updated])
                && r.value == (updated, BugUrl(roots, serviceRoot, updated.id))
    {
      if bug.None? {
        return Failure(AttributeError("bug_tasks"));
      }
      var assignee: Option<Person> := None;
      if d.assignee != "" {
        var a :- CheckAssigneeExist(dir, d.assignee);
        assignee := Some(a);
      }
      bug := Some(ApplyUpdate(bug.value, assignee, d));
      dir := dir.(bugs := dir.bugs[bug.value.id := bug.value]);
      var url := BugUrl(roots, serviceRoot, bug.value.id);
      r := Success((bug.value, url));
    }
  }
}
