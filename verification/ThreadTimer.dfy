/**
 The one-shot timer (thread_timer.cc) as the atomic steps of two actors that share one
 counter: the owner, which may call Cancel and IsRunning and whose destructor is a Cancel, and
 the runner, which executes the delayed task. The owner's calls follow one another; they may
 come from inside the running task.
 */
module ThreadTimer {
  import opened Wrappers

  datatype Side = Owner | Runner

  // Where the owner is: outside any call, about to add one, about to delete the counter, about
  // to clear its pointer, or about to load the counter.
  datatype OwnerAt = Outside | Adding | Deleting | Clearing | Loading

  // Where the delayed task is: not started, running the user's task, about to delete, over.
  datatype RunnerAt = Posted | Running | Discarding | Over

  datatype State = State(
    pointer: bool,          // run_cnt_ is not null
    counter: int,           // *run_cnt_
    owner: OwnerAt,
    runner: RunnerAt,
    increments: seq<Side>,  // who has added one, in order
    runs: nat,              // how often the user's task was started
    freedBy: seq<Side>,     // who deleted the counter
    usedAfterFree: bool,    // the counter was accessed after it was deleted
    answers: seq<bool>)     // what IsRunning returned

  datatype Step = CallCancel | CallIsRunning | OwnerMoves | RunnerMoves

  // The counter after construction, with the task posted or refused by the task runner.
  function Start(posted: bool): State {
    State(posted, 0, Outside, if posted then Posted else Over, [], 0, [], false, [])
  }

  // Accessing the counter records whether it still exists.
  function Touch(s: State): State {
    s.(usedAfterFree := s.usedAfterFree || s.freedBy != [])
  }

  function FetchAdd(s: State, side: Side): State {
    Touch(s).(counter := s.counter + 1, increments := s.increments + [side])
  }

  function Delete(s: State, side: Side): State {
    Touch(s).(freedBy := s.freedBy + [side])
  }

  // One atomic step, or None when the actor cannot take it.
  function Next(s: State, step: Step): Option<State> {
    match step
    case CallCancel =>
      if s.owner != Outside then None
      else if s.pointer then Some(s.(owner := Adding)) else Some(s)
    case CallIsRunning =>
      if s.owner != Outside then None
      else if s.pointer then Some(s.(owner := Loading)) else Some(s.(answers := s.answers + [false]))
    case OwnerMoves =>
      (match s.owner
       case Outside => None
       case Adding => Some(FetchAdd(s, Owner).(owner := if s.counter > 0 then Deleting else Clearing))
       case Deleting => Some(Delete(s, Owner).(owner := Clearing))
       case Clearing => Some(s.(pointer := false, owner := Outside))
       case Loading => Some(Touch(s).(answers := s.answers + [s.counter == 0], owner := Outside)))
    case RunnerMoves =>
      (match s.runner
       case Posted =>
         if s.counter == 0 then Some(FetchAdd(s, Runner).(runner := Running, runs := s.runs + 1))
         else Some(FetchAdd(s, Runner).(runner := Discarding))
       case Running => Some(s.(runner := Over))
       case Discarding => Some(Delete(s, Runner).(runner := Over))
       case Over => None)
  }

  function Run(posted: bool, steps: seq<Step>): Option<State> {
    if steps == [] then Some(Start(posted))
    else
      var before := Run(posted, Init(steps));
      if before.None? then None else Next(before.value, Last(steps))
  }

  // The owner's increment, if any, has happened exactly when the pointer is about to be or has
  // been cleared; the runner's exactly when the task has left its queue.
  ghost predicate Inv(posted: bool, s: State) {
    && (!posted ==> s == Start(false).(answers := s.answers))
    && (posted ==>
      && s.increments in {[], [Owner], [Runner], [Owner, Runner], [Runner, Owner]}
      && s.counter == |s.increments|
      && (Owner in s.increments <==> s.owner == Deleting || s.owner == Clearing || !s.pointer)
      && (!s.pointer ==> s.owner == Outside)
      && (Runner in s.increments <==> s.runner != Posted)
      && (s.owner == Deleting ==> s.increments == [Runner, Owner])
      && (s.runner == Discarding ==> s.increments == [Owner, Runner])
      && (s.runner == Running ==> s.increments != [] && s.increments[0] == Runner)
      && s.runs == (if s.increments != [] && s.increments[0] == Runner then 1 else 0)
      && s.freedBy == (if |s.increments| == 2 && s.owner != Deleting && s.runner != Discarding
                       then [s.increments[1]] else [])
      && !s.usedAfterFree)
  }

  lemma StepKeepsInv(posted: bool, s: State, step: Step)
    requires Inv(posted, s) && Next(s, step).Some?
    ensures Inv(posted, Next(s, step).value)
  {
    match step
    case OwnerMoves =>
      if s.owner == Adding {
        assert s.increments == [] || s.increments == [Runner];
        assert [Runner] + [Owner] == [Runner, Owner] && [] + [Owner] == [Owner];
      }
    case RunnerMoves =>
      if s.runner == Posted {
        assert s.increments == [] || s.increments == [Owner];
        assert [Owner] + [Runner] == [Owner, Runner] && [] + [Runner] == [Runner];
      }
    case _ =>
  }

  lemma {:induction false} RunKeepsInv(posted: bool, steps: seq<Step>)
    requires Run(posted, steps).Some?
    ensures Inv(posted, Run(posted, steps).value)
  {
    if steps != [] {
      RunKeepsInv(posted, Init(steps));
      StepKeepsInv(posted, Run(posted, Init(steps)).value, Last(steps));
    }
  }

  // In every interleaving the task runs at most once, and exactly when the runner's increment
  // came first: never after a Cancel whose increment came first. The counter is deleted at most
  // once, by the side that incremented second, and is never touched after that.
  lemma EveryInterleavingIsSafe(posted: bool, steps: seq<Step>)
    requires Run(posted, steps).Some?
    ensures var s := Run(posted, steps).value;
            && (s.runs == 1 <==> s.increments != [] && s.increments[0] == Runner)
            && s.runs <= 1
            && (s.freedBy != [] ==> |s.increments| == 2 && s.freedBy == [s.increments[1]])
            && !s.usedAfterFree
            && 0 <= s.counter <= 2
  {
    RunKeepsInv(posted, steps);
  }

  // Nothing leaks once both sides are through: the owner has cancelled and the task is over.
  lemma FreedWhenBothAreThrough(steps: seq<Step>)
    requires Run(true, steps).Some?
    requires !Run(true, steps).value.pointer && Run(true, steps).value.runner == Over
    ensures |Run(true, steps).value.freedBy| == 1
  {
    RunKeepsInv(true, steps);
  }

  // Increments are never taken back.
  lemma {:induction false} IncrementsGrow(posted: bool, steps: seq<Step>, more: seq<Step>)
    requires Run(posted, steps + more).Some?
    ensures Run(posted, steps).Some?
    ensures Run(posted, steps).value.increments <= Run(posted, steps + more).value.increments
    decreases |more|
  {
    if more == [] {
      assert steps + more == steps;
    } else {
      assert Init(steps + more) == steps + Init(more);
      IncrementsGrow(posted, steps, Init(more));
    }
  }

  // Once the increment of a Cancel has come first, the task never starts, whatever follows: the
  // Cancel need not be through.
  lemma CancelledNeverStarts(posted: bool, steps: seq<Step>, more: seq<Step>)
    requires Run(posted, steps + more).Some?
    requires Run(posted, steps).Some? && [Owner] <= Run(posted, steps).value.increments
    ensures Run(posted, steps + more).value.runs == 0
  {
    IncrementsGrow(posted, steps, more);
    EveryInterleavingIsSafe(posted, steps + more);
  }

  // Every answer of IsRunning, wherever it comes from, is true if and only if the task was posted
  // and has neither started nor been cancelled: neither side has added one.
  lemma IsRunningMeansArmed(posted: bool, steps: seq<Step>, step: Step)
    requires Run(posted, steps).Some? && Next(Run(posted, steps).value, step).Some?
    ensures var (s, after) := (Run(posted, steps).value, Next(Run(posted, steps).value, step).value);
            after.answers != s.answers ==> after.answers == s.answers + [posted && s.increments == []]
  {
    RunKeepsInv(posted, steps);
  }

  // The owner alone, from outside a call: what a Cancel does until it returns.
  function Cancelled(s: State): Option<State> {
    var called := Next(s, CallCancel);
    if called.None? then None else Return(called.value, 3)
  }

  // The owner moves on until its call has returned, in at most n steps.
  function Return(s: State, n: nat): Option<State>
    decreases n
  {
    if s.owner == Outside then Some(s)
    else if n == 0 || Next(s, OwnerMoves).None? then None
    else Return(Next(s, OwnerMoves).value, n - 1)
  }

  // A Cancel returns, whatever the task has done, and then the timer is cancelled: its pointer is
  // gone. It has counted itself, once, if the pointer was there before, and has freed the counter
  // if the task had counted itself already.
  lemma CancelIsThrough(posted: bool, steps: seq<Step>)
    requires Run(posted, steps).Some? && Run(posted, steps).value.owner == Outside
    ensures var s := Run(posted, steps).value;
            && Cancelled(s).Some? && !Cancelled(s).value.pointer && Cancelled(s).value.answers == s.answers
            && (!s.pointer ==> Cancelled(s).value == s)
            && (s.pointer ==>
                  && Cancelled(s).value.increments == s.increments + [Owner]
                  && Cancelled(s).value.freedBy == if s.increments == [] then [] else [Owner])
  {
    RunKeepsInv(posted, steps);
    var s := Run(posted, steps).value;
    if s.pointer {
      var added := Next(s.(owner := Adding), OwnerMoves).value;
      assert s.increments == [] || s.increments == [Runner];
      assert [] + [Owner] == [Owner] && [Runner] + [Owner] == [Runner, Owner];
      if s.increments == [] {
        assert added.owner == Clearing;
        var through := Next(added, OwnerMoves).value;
        assert Return(added, 2) == Return(through, 1) == Some(through);
      } else {
        assert added.owner == Deleting;
        var freed := Next(added, OwnerMoves).value;
        var through := Next(freed, OwnerMoves).value;
        assert Return(freed, 1) == Return(through, 0) == Some(through);
        assert Return(added, 2) == Some(through);
      }
      assert Return(s.(owner := Adding), 3) == Return(added, 2);
    }
  }

  // Once the counter is gone nobody is about to access it, and it stays as it was.
  lemma GoneIsUntouched(posted: bool, steps: seq<Step>, step: Step)
    requires Run(posted, steps).Some? && Next(Run(posted, steps).value, step).Some?
    requires Run(posted, steps).value.freedBy != []
    ensures var (s, after) := (Run(posted, steps).value, Next(Run(posted, steps).value, step).value);
            && s.owner in {Outside, Clearing} && s.runner in {Running, Over}
            && after.counter == s.counter && after.increments == s.increments && after.freedBy == s.freedBy
  {
    RunKeepsInv(posted, steps);
  }

  // A question returns, answered, and changes nothing else.
  lemma QuestionIsAnswered(posted: bool, steps: seq<Step>)
    requires Run(posted, steps).Some? && Run(posted, steps).value.owner == Outside
    ensures var s := Run(posted, steps).value;
            && Next(s, CallIsRunning).Some? && Return(Next(s, CallIsRunning).value, 1).Some?
            && Return(Next(s, CallIsRunning).value, 1).value
            == s.(answers := s.answers + [posted && s.increments == []])
  {
    RunKeepsInv(posted, steps);
    var called := Next(Run(posted, steps).value, CallIsRunning).value;
    if called.owner == Loading {
      var loaded := Next(called, OwnerMoves).value;
      assert Return(called, 1) == Return(loaded, 0) == Some(loaded);
    }
  }

  // A posted task can always go on until it is over; it runs unless a Cancel has counted first,
  // and otherwise frees the counter.
  lemma TaskGoesOn(posted: bool, steps: seq<Step>)
    requires Run(posted, steps).Some? && Run(posted, steps).value.runner == Posted
    ensures var s := Run(posted, steps).value;
            && Next(s, RunnerMoves).Some? && Next(Next(s, RunnerMoves).value, RunnerMoves).Some?
            && var done := Next(Next(s, RunnerMoves).value, RunnerMoves).value;
               && done.runner == Over
               && (Owner !in s.increments ==> done.runs == 1 && done.freedBy == [])
               && (Owner in s.increments ==> done.runs == 0 && done.freedBy == [Runner])
  {
    RunKeepsInv(posted, steps);
  }
}
