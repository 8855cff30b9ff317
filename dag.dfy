/**
 * The task graph of one DAG run: both extracts before the transform, the
 * transform before the load. A task runs only when every task upstream of
 * it has succeeded; a failed attempt is tried again while the retry budget
 * lasts; a task downstream of a failure is marked and never run.
 */
module Dag {
  import opened Wrappers

  datatype Task = ExtractOnlineSales | ExtractInstoreSales | TransformData | LoadDataToMysql

  /** Pending covers both a task not yet run and one waiting for a retry. */
  datatype Status = Pending | Running | Succeeded | Failed | UpstreamFailed

  /** A task's status and the number of attempts started so far. */
  datatype Slot = Slot(status: Status, tries: nat)

  /** The retry budget every task gets from the DAG's default arguments. */
  const Retries: nat := 1

  /** The dependency edges: each task's direct upstream tasks. */
  function Upstream(t: Task): set<Task> {
    match t
    case ExtractOnlineSales => {}
    case ExtractInstoreSales => {}
    case TransformData => {ExtractOnlineSales, ExtractInstoreSales}
    case LoadDataToMysql => {TransformData}
  }

  datatype RunState = RunState(online: Slot, instore: Slot, transform: Slot, load: Slot)
  {
    function Get(t: Task): Slot {
      match t
      case ExtractOnlineSales => online
      case ExtractInstoreSales => instore
      case TransformData => transform
      case LoadDataToMysql => load
    }

    function Set(t: Task, x: Slot): (s: RunState)
      ensures s.Get(t) == x
      ensures forall u :: u != t ==> s.Get(u) == Get(u)
    {
      match t
      case ExtractOnlineSales => this.(online := x)
      case ExtractInstoreSales => this.(instore := x)
      case TransformData => this.(transform := x)
      case LoadDataToMysql => this.(load := x)
    }
  }

  /** A fresh run: nothing has been attempted. */
  const Initial := RunState(Slot(Pending, 0), Slot(Pending, 0), Slot(Pending, 0), Slot(Pending, 0))

  /** The scheduler may start t: it is waiting and all of its upstream tasks
      have succeeded. */
  predicate Enabled(s: RunState, t: Task) {
    s.Get(t).status == Pending && forall u :: u in Upstream(t) ==> s.Get(u).status == Succeeded
  }

  /** t is waiting but can never run: an upstream task failed for good. */
  predicate Blocked(s: RunState, t: Task) {
    s.Get(t).status == Pending && exists u :: u in Upstream(t) && s.Get(u).status in {Failed, UpstreamFailed}
  }

  /** What the scheduler observes: a task starting, an attempt ending, a
      waiting task being marked as blocked by a failure upstream. */
  datatype Event = Start(task: Task) | Finish(task: Task, ok: bool) | MarkUpstreamFailed(task: Task)

  /** One transition; None when the event is not allowed in s. */
  function Step(s: RunState, e: Event): (r: Option<RunState>)
    ensures r.Some? ==> forall u :: u != e.task ==> r.value.Get(u) == s.Get(u)
    ensures r.Some? ==> forall t :: s.Get(t).tries <= r.value.Get(t).tries
    ensures r.Some? && e.Start? <==> e.Start? && Enabled(s, e.task)
    ensures r.Some? && e.Finish? ==> s.Get(e.task).status == Running
  {
    match e
    case Start(t) =>
      if Enabled(s, t) then Some(s.Set(t, Slot(Running, s.Get(t).tries + 1))) else None
    case Finish(t, ok) =>
      if s.Get(t).status != Running then None
      else if ok then Some(s.Set(t, s.Get(t).(status := Succeeded)))
      else if s.Get(t).tries <= Retries then Some(s.Set(t, s.Get(t).(status := Pending)))
      else Some(s.Set(t, s.Get(t).(status := Failed)))
    case MarkUpstreamFailed(t) =>
      if Blocked(s, t) then Some(s.Set(t, s.Get(t).(status := UpstreamFailed))) else None
  }

  /** The events applied in order; None as soon as one is not allowed. */
  function Run(s: RunState, events: seq<Event>): (r: Option<RunState>)
    ensures r.Some? ==> forall t :: s.Get(t).tries <= r.value.Get(t).tries
    decreases |events|
  {
    if events == [] then Some(s)
    else
      match Step(s, events[0])
      case None => None
      case Some(next) => Run(next, events[1..])
  }

  /** t has been attempted at least once. */
  predicate Started(s: RunState, t: Task) {
    s.Get(t).tries > 0
  }

  /** The ordering invariant: no task has been attempted unless every task
      upstream of it has succeeded; a task that is running or done has been
      attempted; a waiting task has attempts left, and no task has been
      attempted more often than its budget allows. */
  predicate Ordered(s: RunState) {
    && (forall t, u :: u in Upstream(t) && Started(s, t) ==> s.Get(u).status == Succeeded)
    && (forall t :: s.Get(t).status in {Running, Succeeded, Failed} ==> Started(s, t))
    && (forall t :: s.Get(t).status == Pending ==> s.Get(t).tries <= Retries)
    && (forall t :: s.Get(t).tries <= Retries + 1)
  }

  // ------------------------------------------------------------ properties

  lemma InitialIsOrdered()
    ensures Ordered(Initial)
  {
    forall t ensures Initial.Get(t) == Slot(Pending, 0) {
    }
  }

  /** A task that has succeeded, failed or been marked stays so. */
  lemma StepKeepsOutcome(s: RunState, e: Event, t: Task)
    requires Step(s, e).Some?
    requires s.Get(t).status in {Succeeded, Failed, UpstreamFailed}
    ensures Step(s, e).value.Get(t).status == s.Get(t).status
    ensures Step(s, e).value.Get(t).tries == s.Get(t).tries
  {
  }

  lemma StepKeepsOrdered(s: RunState, e: Event)
    requires Ordered(s) && Step(s, e).Some?
    ensures Ordered(Step(s, e).value)
  {
    var n := Step(s, e).value;
    forall t, u | u in Upstream(t) && Started(n, t)
      ensures n.Get(u).status == Succeeded
    {
      if Started(s, t) {
        StepKeepsOutcome(s, e, u);
      }
    }
  }

  lemma {:induction false} RunKeepsOrdered(s: RunState, events: seq<Event>)
    requires Ordered(s) && Run(s, events).Some?
    ensures Ordered(Run(s, events).value)
    decreases |events|
  {
    if events != [] {
      StepKeepsOrdered(s, events[0]);
      RunKeepsOrdered(Step(s, events[0]).value, events[1..]);
    }
  }

  /** The fan-in: in any run, the transform has been attempted only after
      both extracts succeeded, and the load only after the transform (and so
      both extracts) succeeded. */
  lemma DependenciesRespected(events: seq<Event>)
    requires Run(Initial, events).Some?
    ensures var s := Run(Initial, events).value;
            && (Started(s, TransformData) ==>
                  s.Get(ExtractOnlineSales).status == Succeeded && s.Get(ExtractInstoreSales).status == Succeeded)
            && (Started(s, LoadDataToMysql) ==>
                  s.Get(TransformData).status == Succeeded
                  && s.Get(ExtractOnlineSales).status == Succeeded && s.Get(ExtractInstoreSales).status == Succeeded)
  {
    InitialIsOrdered();
    RunKeepsOrdered(Initial, events);
    var s := Run(Initial, events).value;
    assert TransformData in Upstream(LoadDataToMysql);
    assert ExtractOnlineSales in Upstream(TransformData) && ExtractInstoreSales in Upstream(TransformData);
  }

  /** Once a task upstream of t has failed for good, t is never attempted,
      whatever the scheduler does next. */
  lemma {:induction false} NeverStartsAfterUpstreamFailure(s: RunState, events: seq<Event>, t: Task, u: Task)
    requires u in Upstream(t) && s.Get(u).status == Failed && !Started(s, t)
    requires Run(s, events).Some?
    ensures !Started(Run(s, events).value, t)
    ensures Run(s, events).value.Get(u).status == Failed
    decreases |events|
  {
    if events != [] {
      var n := Step(s, events[0]).value;
      StepKeepsOutcome(s, events[0], u);
      assert !Started(n, t);
      NeverStartsAfterUpstreamFailure(n, events[1..], t, u);
    }
  }

  /** A failed extract stops the run before the transform and the load. */
  lemma FailedExtractStopsRun(s: RunState, events: seq<Event>, extract: Task)
    requires Ordered(s)
    requires extract in {ExtractOnlineSales, ExtractInstoreSales} && s.Get(extract).status == Failed
    requires Run(s, events).Some?
    ensures !Started(Run(s, events).value, TransformData)
    ensures !Started(Run(s, events).value, LoadDataToMysql)
  {
    assert extract in Upstream(TransformData);
    assert !Started(s, TransformData);
    NeverStartsAfterUpstreamFailure(s, events, TransformData, extract);
    RunKeepsOrdered(s, events);
    assert TransformData in Upstream(LoadDataToMysql);
  }

  lemma {:induction false} RunAppend(s: RunState, a: seq<Event>, b: seq<Event>)
    requires Run(s, a).Some?
    ensures Run(s, a + b) == Run(Run(s, a).value, b)
    decreases |a|
  {
    if a != [] {
      assert (a + b)[0] == a[0];
      assert (a + b)[1..] == a[1..] + b;
      RunAppend(Step(s, a[0]).value, a[1..], b);
    } else {
      assert a + b == b;
    }
  }

  /** The run the scheduler makes when nothing fails: the extracts, in
      either order, then the transform, then the load. */
  const Extracts := [Start(ExtractOnlineSales), Start(ExtractInstoreSales),
                     Finish(ExtractInstoreSales, true), Finish(ExtractOnlineSales, true)]
  const TransformAndLoad := [Start(TransformData), Finish(TransformData, true),
                             Start(LoadDataToMysql), Finish(LoadDataToMysql, true)]

  lemma ExtractsSucceed()
    ensures Run(Initial, Extracts)
            == Some(RunState(Slot(Succeeded, 1), Slot(Succeeded, 1), Slot(Pending, 0), Slot(Pending, 0)))
  {
    var p, r, ok := Slot(Pending, 0), Slot(Running, 1), Slot(Succeeded, 1);
    var e := Extracts;
    var mid := RunState(ok, ok, p, p);
    assert Run(RunState(r, ok, p, p), e[3..]) == Some(mid);
    assert Run(RunState(r, r, p, p), e[2..]) == Some(mid);
    assert Run(RunState(r, p, p, p), e[1..]) == Some(mid);
  }

  lemma TransformAndLoadSucceed()
    ensures Run(RunState(Slot(Succeeded, 1), Slot(Succeeded, 1), Slot(Pending, 0), Slot(Pending, 0)), TransformAndLoad)
            == Some(RunState(Slot(Succeeded, 1), Slot(Succeeded, 1), Slot(Succeeded, 1), Slot(Succeeded, 1)))
  {
    var p, r, ok := Slot(Pending, 0), Slot(Running, 1), Slot(Succeeded, 1);
    var f := TransformAndLoad;
    var done := RunState(ok, ok, ok, ok);
    assert Enabled(RunState(ok, ok, ok, p), LoadDataToMysql);
    assert Run(RunState(ok, ok, ok, r), f[3..]) == Some(done);
    assert Run(RunState(ok, ok, ok, p), f[2..]) == Some(done);
    assert Enabled(RunState(ok, ok, p, p), TransformData);
    assert Run(RunState(ok, ok, r, p), f[1..]) == Some(done);
  }

  /** With no failure, every task succeeds at its first attempt. */
  lemma HappyPathSucceeds()
    ensures Run(Initial, Extracts + TransformAndLoad)
            == Some(RunState(Slot(Succeeded, 1), Slot(Succeeded, 1), Slot(Succeeded, 1), Slot(Succeeded, 1)))
  {
    ExtractsSucceed();
    TransformAndLoadSucceed();
    RunAppend(Initial, Extracts, TransformAndLoad);
  }

  /** A failing task is attempted once more, then fails for good; the task
      downstream is then marked, never run. */
  lemma RetryThenFail()
    ensures var s := RunState(Slot(Succeeded, 1), Slot(Succeeded, 1), Slot(Pending, 0), Slot(Pending, 0));
            Run(s, [Start(TransformData), Finish(TransformData, false),
                    Start(TransformData), Finish(TransformData, false),
                    MarkUpstreamFailed(LoadDataToMysql)])
            == Some(RunState(Slot(Succeeded, 1), Slot(Succeeded, 1), Slot(Failed, 2), Slot(UpstreamFailed, 0)))
  {
    var ok, p := Slot(Succeeded, 1), Slot(Pending, 0);
    var e := [Start(TransformData), Finish(TransformData, false),
              Start(TransformData), Finish(TransformData, false),
              MarkUpstreamFailed(LoadDataToMysql)];
    var last := RunState(ok, ok, Slot(Failed, 2), Slot(UpstreamFailed, 0));
    assert Blocked(RunState(ok, ok, Slot(Failed, 2), p), LoadDataToMysql) by {
      assert TransformData in Upstream(LoadDataToMysql);
    }
    assert Run(RunState(ok, ok, Slot(Failed, 2), p), e[4..]) == Some(last);
    assert Run(RunState(ok, ok, Slot(Running, 2), p), e[3..]) == Some(last);
    assert Run(RunState(ok, ok, Slot(Pending, 1), p), e[2..]) == Some(last);
    assert Run(RunState(ok, ok, Slot(Running, 1), p), e[1..]) == Some(last);
  }
}
