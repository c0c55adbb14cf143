/**
 * The planner's state `{tasks, notes, selectedTaskId}` and the operations
 * that change it in place. Identifiers and timestamps, which the script
 * draws from `Math.random` and `Date.now`, are parameters here; the
 * persistence and re-rendering that follow every change are not modelled.
 */
module Store {
  import opened Wrappers
  import opened Seqs
  import opened Tasks

  function TaskKey(t: Task): TaskId { t.id }
  function NoteKey(n: Note): NoteId { n.id }

  /** `state.tasks.find(x => x.id === id)`, as an index. */
  function FindTask(tasks: seq<Task>, id: TaskId): (r: Option<nat>)
    ensures r.None? <==> forall i :: 0 <= i < |tasks| ==> tasks[i].id != id
    ensures r.Some? ==> r.value < |tasks| && tasks[r.value].id == id
  {
    FindIndex(tasks, (t: Task) => t.id == id)
  }

  /** `list.find(x => x.id === noteId)`, as an index. */
  function FindNote(list: seq<Note>, noteId: NoteId): (r: Option<nat>)
    ensures r.None? <==> forall i :: 0 <= i < |list| ==> list[i].id != noteId
    ensures r.Some? ==> r.value < |list| && list[r.value].id == noteId
  {
    FindIndex(list, (n: Note) => n.id == noteId)
  }

  /** `tasks.filter(x => x.id !== id)` */
  function WithoutTask(tasks: seq<Task>, id: TaskId): (r: seq<Task>)
    ensures forall i :: 0 <= i < |r| ==> r[i].id != id
    ensures forall t: Task :: t.id != id ==> multiset(r)[t] == multiset(tasks)[t]
    ensures IsSubsequence(r, tasks)
  {
    Filter(tasks, (t: Task) => t.id != id)
  }

  /** `list.filter(x => x.id !== noteId)` */
  function WithoutNote(list: seq<Note>, noteId: NoteId): (r: seq<Note>)
    ensures forall i :: 0 <= i < |r| ==> r[i].id != noteId
    ensures forall n: Note :: n.id != noteId ==> multiset(r)[n] == multiset(list)[n]
    ensures IsSubsequence(r, list)
  {
    Filter(list, (n: Note) => n.id != noteId)
  }

  /** `notes[taskId] || []` */
  function NotesOf(notes: map<TaskId, seq<Note>>, taskId: TaskId): (list: seq<Note>)
    ensures taskId in notes ==> list == notes[taskId]
    ensures taskId !in notes ==> list == []
  {
    if taskId in notes then notes[taskId] else []
  }

  /** Task ids are unique. */
  ghost predicate TaskIdsUnique(tasks: seq<Task>) {
    DistinctBy(tasks, TaskKey)
  }

  /** Note ids are unique within each list and across lists. */
  ghost predicate NoteIdsUnique(notes: map<TaskId, seq<Note>>) {
    && (forall k | k in notes :: DistinctBy(notes[k], NoteKey))
    && (forall k1, k2, n1, n2 | k1 in notes && k2 in notes && k1 != k2 && n1 in notes[k1] && n2 in notes[k2] ::
          n1.id != n2.id)
  }

  ghost predicate NoteIdUnused(notes: map<TaskId, seq<Note>>, noteId: NoteId) {
    forall k, n | k in notes && n in notes[k] :: n.id != noteId
  }

  /** Replacing a list by one with the same ids at the same positions keeps ids unique. */
  lemma SameIdsKeepUnique(notes: map<TaskId, seq<Note>>, k: TaskId, list: seq<Note>)
    requires NoteIdsUnique(notes) && k in notes
    requires |list| == |notes[k]| && forall i :: 0 <= i < |list| ==> list[i].id == notes[k][i].id
    ensures NoteIdsUnique(notes[k := list])
  {
    var after := notes[k := list];
    assert DistinctBy(list, NoteKey) by {
      forall i, j | 0 <= i < j < |list| ensures NoteKey(list[i]) != NoteKey(list[j]) {
        assert NoteKey(notes[k][i]) != NoteKey(notes[k][j]);
      }
    }
    assert forall k' | k' in after :: DistinctBy(after[k'], NoteKey);
    forall k1, k2, n1: Note, n2: Note | k1 in after && k2 in after && k1 != k2 && n1 in after[k1] && n2 in after[k2]
      ensures n1.id != n2.id
    {
      var m1 := SameIdAt(notes, after, k, k1, n1);
      var m2 := SameIdAt(notes, after, k, k2, n2);
    }
  }

  /** A note of the replaced map has the id of a note of the original map under the same key. */
  lemma SameIdAt(notes: map<TaskId, seq<Note>>, after: map<TaskId, seq<Note>>, k: TaskId, k1: TaskId, n1: Note)
    returns (m1: Note)
    requires k in notes && k1 in after && n1 in after[k1]
    requires after.Keys == notes.Keys && forall k' | k' in notes && k' != k :: after[k'] == notes[k']
    requires |after[k]| == |notes[k]| && forall i :: 0 <= i < |after[k]| ==> after[k][i].id == notes[k][i].id
    ensures k1 in notes && m1 in notes[k1] && m1.id == n1.id
  {
    if k1 == k {
      var i :| 0 <= i < |after[k]| && after[k][i] == n1;
      m1 := notes[k][i];
    } else {
      m1 := n1;
    }
  }

  class TaskStore {
    var tasks: seq<Task>
    var notes: map<TaskId, seq<Note>>
    var selectedTaskId: Option<TaskId>

    ghost predicate Valid()
      reads this
    {
      TaskIdsUnique(tasks) && NoteIdsUnique(notes)
    }

    /** The empty state `{tasks: [], notes: {}, selectedTaskId: null}`. */
    constructor ()
      ensures Valid()
      ensures tasks == [] && notes == map[] && selectedTaskId == None
    {
      tasks := [];
      notes := map[];
      selectedTaskId := None;
    }

    /**
     * Appends a new task with defaults filled in and makes sure it has a
     * note list; a list already filed under the new id is kept.
     */
    method AddTask(fields: TaskFields, freshId: TaskId, now: int) returns (id: TaskId)
      requires Valid()
      requires forall i :: 0 <= i < |tasks| ==> tasks[i].id != freshId
      modifies this
      ensures Valid()
      ensures id == freshId
      ensures tasks == old(tasks) + [NewTask(freshId, fields, now)]
      ensures notes == if freshId in old(notes) then old(notes) else old(notes)[freshId := []]
      ensures selectedTaskId == old(selectedTaskId)
    {
      var t := NewTask(freshId, fields, now);
      tasks := tasks + [t];
      if freshId !in notes {
        notes := notes[freshId := []];
      }
      id := t.id;
    }

    /** Merges `changes` into the first task with identity `id`, if any. */
    method UpdateTask(id: TaskId, changes: TaskChanges)
      requires Valid()
      modifies this
      ensures Valid()
      ensures FindTask(old(tasks), id).None? ==> tasks == old(tasks)
      ensures FindTask(old(tasks), id).Some? ==>
        var i := FindTask(old(tasks), id).value;
        tasks == old(tasks)[i := ApplyChanges(old(tasks)[i], changes)]
      ensures notes == old(notes) && selectedTaskId == old(selectedTaskId)
    {
      var found := FindTask(tasks, id);
      if found.Some? {
        var i := found.value;
        tasks := tasks[i := ApplyChanges(tasks[i], changes)];
      }
    }

    /** Removes the task and its note list, and clears the selection if it pointed at it. */
    method RemoveTask(id: TaskId)
      requires Valid()
      modifies this
      ensures Valid()
      ensures tasks == WithoutTask(old(tasks), id)
      ensures notes == old(notes) - {id}
      ensures selectedTaskId == if old(selectedTaskId) == Some(id) then None else old(selectedTaskId)
    {
      SubsequenceKeepsDistinct(WithoutTask(tasks, id), tasks, TaskKey);
      tasks := WithoutTask(tasks, id);
      notes := notes - {id};
      if selectedTaskId == Some(id) {
        selectedTaskId := None;
      }
    }

    /**
     * Appends a note to the list filed under `taskId`, creating the list when
     * there is none; whether a task with that id exists is not checked.
     */
    method AddNote(taskId: TaskId, html: string, freshId: NoteId, now: int)
      requires Valid()
      requires NoteIdUnused(notes, freshId)
      modifies this
      ensures Valid()
      ensures notes == old(notes)[taskId := NotesOf(old(notes), taskId) + [Note(freshId, html, now)]]
      ensures tasks == old(tasks) && selectedTaskId == old(selectedTaskId)
    {
      var list := NotesOf(notes, taskId);
      var n := Note(freshId, html, now);
      ghost var before := notes;
      notes := notes[taskId := list + [n]];
      forall k1, k2, n1, n2 | k1 in notes && k2 in notes && k1 != k2 && n1 in notes[k1] && n2 in notes[k2]
        ensures n1.id != n2.id
      {
        if k1 == taskId && n1 != n {
          assert n1 in list;
        }
        if k2 == taskId && n2 != n {
          assert n2 in list;
        }
      }
    }

    /** Replaces the content of the first note with identity `noteId` in the list of `taskId`. */
    method UpdateNote(taskId: TaskId, noteId: NoteId, html: string)
      requires Valid()
      modifies this
      ensures Valid()
      ensures taskId !in old(notes) || FindNote(old(notes)[taskId], noteId).None? ==> notes == old(notes)
      ensures taskId in old(notes) && FindNote(old(notes)[taskId], noteId).Some? ==>
        var list := old(notes)[taskId];
        var i := FindNote(list, noteId).value;
        notes == old(notes)[taskId := list[i := list[i].(html := html)]]
      ensures tasks == old(tasks) && selectedTaskId == old(selectedTaskId)
    {
      var list := NotesOf(notes, taskId);
      var found := FindNote(list, noteId);
      if found.Some? {
        var i := found.value;
        var updated := list[i := list[i].(html := html)];
        SameIdsKeepUnique(notes, taskId, updated);
        notes := notes[taskId := updated];
      }
    }

    /** Keeps, in the list of `taskId`, the notes whose id differs from `noteId`; files the result under `taskId`. */
    method RemoveNote(taskId: TaskId, noteId: NoteId)
      requires Valid()
      modifies this
      ensures Valid()
      ensures notes == old(notes)[taskId := WithoutNote(NotesOf(old(notes), taskId), noteId)]
      ensures tasks == old(tasks) && selectedTaskId == old(selectedTaskId)
    {
      var list := NotesOf(notes, taskId);
      SubsequenceKeepsDistinct(WithoutNote(list, noteId), list, NoteKey);
      notes := notes[taskId := WithoutNote(list, noteId)];
    }
  }
}
