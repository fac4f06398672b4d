/** Batched coprocessor tasks: every task becomes a future, the futures finish in any order,
    and the responses are collected in the order of the tasks. */
module BatchTasks {
  import opened Wrappers

  /** The parts of a response, or the error the task ended with. */
  datatype Answer = Answer(data: string, regionError: Option<string>, locked: Option<string>, otherError: string)

  datatype Error = RegionError(region: string) | Locked(lock: string) | OtherError(other: string)

  /** A task that does not parse, or meets a memory lock, is never handed to the read pool. */
  datatype Task = Task(id: nat, rejected: Option<Error>)

  datatype TaskResponse = TaskResponse(taskId: nat, answer: Answer)

  function ErrorAnswer(e: Error): Answer {
    match e
    case RegionError(r) => Answer("", Some(r), None, "")
    case Locked(l) => Answer("", None, Some(l), "")
    case OtherError(o) => Answer("", None, None, o)
  }

  /** What a finished future answers. */
  function Respond(task: Task, result: Result<Answer, Error>): TaskResponse {
    match task.rejected
    case Some(e) => TaskResponse(task.id, ErrorAnswer(e))
    case None => TaskResponse(task.id, if result.Ok? then result.value else ErrorAnswer(result.error))
  }

  /** The future of task `index` finishes. */
  datatype Completion = Completion(index: nat, result: Result<Answer, Error>)

  /** A future finishes at most once. */
  ghost predicate Completions(tasks: seq<Task>, done: seq<Completion>) {
    && (forall k :: 0 <= k < |done| ==> done[k].index < |tasks|)
    && (forall j, k :: 0 <= j < k < |done| ==> done[j].index != done[k].index)
  }

  /** `r` answers task `i` with the result its own future ended with. */
  ghost predicate Answers(tasks: seq<Task>, done: seq<Completion>, i: nat, r: TaskResponse)
    requires i < |tasks|
  {
    exists k :: 0 <= k < |done| && done[k].index == i && r == Respond(tasks[i], done[k].result)
  }

  ghost predicate HasCompleted(done: seq<Completion>, i: nat) {
    exists k :: 0 <= k < |done| && done[k].index == i
  }

  /** The responses given out: the longest run of finished tasks from the first one on. */
  ghost predicate Collected(tasks: seq<Task>, done: seq<Completion>, out: seq<TaskResponse>) {
    && |out| <= |tasks|
    && (forall i :: 0 <= i < |out| ==> Answers(tasks, done, i, out[i]))
    && !HasCompleted(done, |out|)
  }

  /** Every finished task has been given out or waits in the queue, with its own answer. */
  ghost predicate Held(tasks: seq<Task>, done: seq<Completion>, out: seq<TaskResponse>,
                       queued: map<nat, TaskResponse>) {
    && |out| <= |tasks|
    && (forall i :: 0 <= i < |out| ==> Answers(tasks, done, i, out[i]))
    && (forall i :: i in queued ==> |out| <= i < |tasks| && Answers(tasks, done, i, queued[i]))
    && (forall k :: 0 <= k < |done| ==> done[k].index < |out| || done[k].index in queued)
  }

  /** Collects the responses of finished futures: one that finishes early waits in `queued`. */
  method CollectInOrder(tasks: seq<Task>, done: seq<Completion>) returns (out: seq<TaskResponse>)
    requires Completions(tasks, done)
    ensures Collected(tasks, done, out)
    ensures |out| == |tasks| <==> forall i :: 0 <= i < |tasks| ==> HasCompleted(done, i)
  {
    out := [];
    var queued: map<nat, TaskResponse> := map[];
    for n := 0 to |done|
      invariant Held(tasks, done[..n], out, queued) && |out| !in queued
    {
      hide Held, Answers, Respond;
      HeldMore(tasks, done, n, out, queued);
      queued := queued[done[n].index := Respond(tasks[done[n].index], done[n].result)];
      while |out| in queued
        invariant Held(tasks, done[..n + 1], out, queued)
        decreases |queued|
      {
        HeldRelease(tasks, done[..n + 1], out, queued);
        out, queued := out + [queued[|out|]], queued - {|out|};
      }
    }
    assert done[..|done|] == done;
    AllOrStuck(tasks, done, out);
  }

  lemma HeldMore(tasks: seq<Task>, done: seq<Completion>, n: nat, out: seq<TaskResponse>,
                 queued: map<nat, TaskResponse>)
    requires Completions(tasks, done) && n < |done| && Held(tasks, done[..n], out, queued)
    ensures Held(tasks, done[..n + 1], out, queued[done[n].index := Respond(tasks[done[n].index], done[n].result)])
  {
    hide Respond;
    AnswersMore(tasks, done, n);
    assert !HasCompleted(done[..n], done[n].index);
    forall i | 0 <= i < |out|
      ensures HasCompleted(done[..n], i)
    {
      assert Answers(tasks, done[..n], i, out[i]);
    }
  }

  lemma HeldRelease(tasks: seq<Task>, done: seq<Completion>, out: seq<TaskResponse>, queued: map<nat, TaskResponse>)
    requires Held(tasks, done, out, queued) && |out| in queued
    ensures Held(tasks, done, out + [queued[|out|]], queued - {|out|})
    ensures |queued - {|out|}| < |queued|
  {
    hide Answers;
    assert queued.Keys == (queued - {|out|}).Keys + {|out|};
  }

  lemma AnswersMore(tasks: seq<Task>, done: seq<Completion>, n: nat)
    requires Completions(tasks, done) && n < |done|
    ensures forall i, r :: 0 <= i < |tasks| && Answers(tasks, done[..n], i, r) ==> Answers(tasks, done[..n + 1], i, r)
    ensures Answers(tasks, done[..n + 1], done[n].index, Respond(tasks[done[n].index], done[n].result))
  {
    assert done[..n + 1][n] == done[n];
    forall i, r | 0 <= i < |tasks| && Answers(tasks, done[..n], i, r)
      ensures Answers(tasks, done[..n + 1], i, r)
    {
      var k :| 0 <= k < n && done[..n][k].index == i && r == Respond(tasks[i], done[..n][k].result);
      assert done[..n + 1][k] == done[k];
    }
  }

  lemma AllOrStuck(tasks: seq<Task>, done: seq<Completion>, out: seq<TaskResponse>)
    requires Completions(tasks, done) && Collected(tasks, done, out)
    ensures |out| == |tasks| <==> forall i :: 0 <= i < |tasks| ==> HasCompleted(done, i)
  {
    if |out| == |tasks| {
      forall i | 0 <= i < |tasks|
        ensures HasCompleted(done, i)
      {
        assert Answers(tasks, done, i, out[i]);
      }
    }
  }

  /** Responses stand at their tasks' positions and carry their tasks' ids. */
  lemma ResponsesMatchTasks(tasks: seq<Task>, done: seq<Completion>, out: seq<TaskResponse>, i: nat)
    requires Collected(tasks, done, out) && i < |out|
    ensures out[i].taskId == tasks[i].id
    ensures tasks[i].rejected.Some? ==> out[i].answer == ErrorAnswer(tasks[i].rejected.value)
    ensures tasks[i].rejected.None? ==>
              exists k :: && 0 <= k < |done| && done[k].index == i
                          && match done[k].result
                             case Ok(a) => out[i].answer == a
                             case Err(e) => out[i].answer == ErrorAnswer(e)
  {
    assert Answers(tasks, done, i, out[i]);
  }

  /** A failed task is answered with its error and nothing else: a region error, a lock or any
      other error each in its own part, and no data. */
  lemma ErrorStandsAlone(e: Error)
    ensures var a := ErrorAnswer(e);
            && a.data == ""
            && (e.RegionError? ==> a.regionError == Some(e.region) && a.locked.None? && a.otherError == "")
            && (e.Locked? ==> a.regionError.None? && a.locked == Some(e.lock) && a.otherError == "")
            && (e.OtherError? ==> a.regionError.None? && a.locked.None? && a.otherError == e.other)
  {
  }

  /** The order in which the futures finish leaves no trace in the responses. */
  lemma OrderDoesNotMatter(tasks: seq<Task>, done: seq<Completion>, done': seq<Completion>,
                           out: seq<TaskResponse>, out': seq<TaskResponse>)
    requires Completions(tasks, done) && Completions(tasks, done')
    requires forall c :: c in done <==> c in done'
    requires Collected(tasks, done, out) && Collected(tasks, done', out')
    ensures out == out'
  {
    NoLonger(tasks, done, done', out, out');
    NoLonger(tasks, done', done, out', out);
    forall i | 0 <= i < |out|
      ensures out[i] == out'[i]
    {
      var k :| 0 <= k < |done| && done[k].index == i && out[i] == Respond(tasks[i], done[k].result);
      var k' :| 0 <= k' < |done'| && done'[k'].index == i && out'[i] == Respond(tasks[i], done'[k'].result);
      assert done[k] in done';
      var j :| 0 <= j < |done'| && done'[j] == done[k];
      assert j == k';
    }
  }

  lemma NoLonger(tasks: seq<Task>, done: seq<Completion>, done': seq<Completion>,
                 out: seq<TaskResponse>, out': seq<TaskResponse>)
    requires forall c :: c in done' ==> c in done
    requires Collected(tasks, done, out) && Collected(tasks, done', out')
    ensures |out'| <= |out|
  {
    if |out'| > |out| {
      assert Answers(tasks, done', |out|, out'[|out|]);
      var k :| 0 <= k < |done'| && done'[k].index == |out|;
      assert done'[k] in done;
      assert HasCompleted(done, |out|);
    }
  }
}
