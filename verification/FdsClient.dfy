/** The reconnecting discovery client: goroutines and timers as a multiset of activities, so that nothing
    but the steps themselves limits how many there are. */
module FdsClient {

  /** A restart timer looks at the context when it fires, or restarts regardless. */
  datatype Timer = Checked | Unchecked

  datatype Activity =
    | Connecting           // opening a stream and sending the initial requests
    | AtSelect             // top of the receive loop
    | Receiving            // blocked on the stream
    | Handling             // a response handler runs
    | Waiting(timer: Timer)

  datatype State = State(activities: multiset<Activity>, cancelled: bool)

  datatype Step =
    | Connected
    | ConnectFailed
    | LoopOn
    | LoopEnds
    | Received
    | ReceiveFailed
    | Handled
    | Fires(timer: Timer)
    | Cancel

  const INIT := State(multiset{Connecting}, false)

  /** The activity a step ends. */
  function Ended(step: Step): Activity
    requires !step.Cancel?
  {
    match step
    case Connected | ConnectFailed => Connecting
    case LoopOn | LoopEnds => AtSelect
    case Received | ReceiveFailed => Receiving
    case Handled => Handling
    case Fires(t) => Waiting(t)
  }

  /** The activities it begins. */
  function Begun(step: Step, cancelled: bool): multiset<Activity>
    requires !step.Cancel?
  {
    match step
    case Connected => multiset{AtSelect}
    case ConnectFailed => multiset{Waiting(Checked)}
    case LoopOn => multiset{Receiving}
    case LoopEnds => multiset{}
    case Received => multiset{Handling}
    case ReceiveFailed => multiset{Waiting(Unchecked)}
    case Handled => multiset{AtSelect}
    case Fires(Checked) => if cancelled then multiset{} else multiset{Connecting}
    case Fires(Unchecked) => multiset{Connecting}
  }

  predicate Enabled(s: State, step: Step) {
    if step.Cancel? then !s.cancelled
    else Ended(step) in s.activities && (step.LoopOn? ==> !s.cancelled) && (step.LoopEnds? ==> s.cancelled)
  }

  function Apply(s: State, step: Step): State
    requires Enabled(s, step)
  {
    if step.Cancel? then s.(cancelled := true)
    else s.(activities := s.activities - multiset{Ended(step)} + Begun(step, s.cancelled))
  }

  predicate Legal(s: State, steps: seq<Step>)
    decreases |steps|
  {
    steps == [] || (Enabled(s, steps[0]) && Legal(Apply(s, steps[0]), steps[1..]))
  }

  function Run(s: State, steps: seq<Step>): State
    requires Legal(s, steps)
    decreases |steps|
  {
    if steps == [] then s else Run(Apply(s, steps[0]), steps[1..])
  }

  /** One activity; or none, once cancelled. */
  ghost predicate Single(s: State) {
    (exists a :: s.activities == multiset{a}) || (s.cancelled && s.activities == multiset{})
  }

  lemma StepKeepsSingle(s: State, step: Step)
    requires Single(s) && Enabled(s, step)
    ensures Single(Apply(s, step))
  {
    if !step.Cancel? {
      assert s.activities == multiset{Ended(step)};
      assert Apply(s, step).activities == Begun(step, s.cancelled);
    } else if a :| s.activities == multiset{a} {
      assert Apply(s, step).activities == multiset{a};
    }
  }

  lemma {:induction false} RunKeepsSingle(s: State, steps: seq<Step>)
    requires Single(s) && Legal(s, steps)
    ensures Single(Run(s, steps))
    decreases |steps|
  {
    if steps == [] {
    } else {
      StepKeepsSingle(s, steps[0]);
      RunKeepsSingle(Apply(s, steps[0]), steps[1..]);
    }
  }

  function ReceiveLoops(s: State): nat {
    s.activities[AtSelect] + s.activities[Receiving] + s.activities[Handling]
  }

  /** In every run the client is doing exactly one thing until it stops, which only cancellation brings
      about; in particular two receive loops never share its stream. */
  lemma ExactlyOneActivity(steps: seq<Step>)
    requires Legal(INIT, steps)
    ensures var s := Run(INIT, steps);
            && |s.activities| <= 1
            && ReceiveLoops(s) <= 1
            && (|s.activities| == 0 ==> s.cancelled)
  {
    assert INIT.activities == multiset{Connecting};
    RunKeepsSingle(INIT, steps);
    var s := Run(INIT, steps);
    if a :| s.activities == multiset{a} {
      assert |s.activities| == 1;
    }
  }

  // ---------------------------------------------------------------- stopping after cancellation

  function Rank(a: Activity): nat {
    match a
    case AtSelect => 1
    case Waiting(Checked) => 1
    case Handling => 2
    case Connecting => 2
    case Waiting(Unchecked) => 3
    case Receiving => 4
  }

  ghost function RankOf(s: State): nat {
    if exists a :: s.activities == multiset{a} then var a :| s.activities == multiset{a}; Rank(a) else 0
  }

  lemma RankSingle(s: State, a: Activity)
    requires s.activities == multiset{a}
    ensures RankOf(s) == Rank(a)
  {
    var b :| s.activities == multiset{b} && RankOf(s) == Rank(b);
    assert b in multiset{a};
  }

  /** After cancellation every step brings the client closer to its end. */
  lemma CancelledStepDescends(s: State, step: Step)
    requires Single(s) && s.cancelled && Enabled(s, step)
    ensures RankOf(Apply(s, step)) < RankOf(s)
  {
    var s' := Apply(s, step);
    assert s.activities == multiset{Ended(step)};
    assert s'.activities == Begun(step, true);
    RankSingle(s, Ended(step));
    if a :| s'.activities == multiset{a} {
      assert a in Begun(step, true);
      RankSingle(s', a);
    }
  }

  lemma RankBound(s: State)
    ensures RankOf(s) <= 4
  {
    if a :| s.activities == multiset{a} {
      RankSingle(s, a);
    }
  }

  /** Unless it has stopped, the client can take a step. */
  lemma NotStuck(s: State)
    requires Single(s) && s.activities != multiset{}
    ensures exists step: Step :: !step.Cancel? && Enabled(s, step)
  {
    var a :| s.activities == multiset{a};
    assert a in s.activities;
    var step := match a
      case Connecting => Connected
      case AtSelect => if s.cancelled then LoopEnds else LoopOn
      case Receiving => Received
      case Handling => Handled
      case Waiting(t) => Fires(t);
    assert !step.Cancel? && Enabled(s, step);
  }

  /** A restart that follows a broken stream does not look at the context: the client connects once more after
      cancellation, and goes on from there. */
  lemma ReconnectsAfterCancellation(more: seq<Step>)
    requires Legal(State(multiset{Connecting}, true), more)
    ensures var s, steps := State(multiset{Receiving}, true), [ReceiveFailed] + ([Fires(Unchecked)] + more);
            Legal(s, steps) && Run(s, steps) == Run(State(multiset{Connecting}, true), more)
  {
    var waiting := State(multiset{Waiting(Unchecked)}, true);
    Stepwise(waiting, Fires(Unchecked), State(multiset{Connecting}, true), more);
    BrokenStream([Fires(Unchecked)] + more);
  }

  lemma BrokenStream(more: seq<Step>)
    requires Legal(State(multiset{Waiting(Unchecked)}, true), more)
    ensures var s, steps := State(multiset{Receiving}, true), [ReceiveFailed] + more;
            Legal(s, steps) && Run(s, steps) == Run(State(multiset{Waiting(Unchecked)}, true), more)
  {
    Stepwise(State(multiset{Receiving}, true), ReceiveFailed, State(multiset{Waiting(Unchecked)}, true), more);
  }

  /** When that attempt fails, another timer has to fire. */
  lemma GivesUp() returns (more: seq<Step>)
    ensures |more| == 2
    ensures var s := State(multiset{Connecting}, true); Legal(s, more) && Run(s, more).activities == multiset{}
  {
    var last := State(multiset{Waiting(Checked)}, true);
    more := [ConnectFailed] + ([Fires(Checked)] + []);
    Stepwise(State(multiset{Connecting}, true), ConnectFailed, last, [Fires(Checked)] + []);
    Stepwise(last, Fires(Checked), State(multiset{}, true), []);
  }

  /** So the bound of four steps is reached. */
  lemma FourStepsRemain() returns (steps: seq<Step>)
    ensures |steps| == 4
    ensures var s := State(multiset{Receiving}, true); Legal(s, steps) && Run(s, steps).activities == multiset{}
  {
    var more := GivesUp();
    ReconnectsAfterCancellation(more);
    steps := [ReceiveFailed] + ([Fires(Unchecked)] + more);
  }

  /** One step, and then the others. */
  lemma Stepwise(s: State, step: Step, s': State, more: seq<Step>)
    requires Enabled(s, step) && Apply(s, step) == s'
    ensures Legal(s, [step] + more) <==> Legal(s', more)
    ensures Legal(s', more) ==> Run(s, [step] + more) == Run(s', more)
  {
    assert ([step] + more)[1..] == more;
  }

  /** So, whatever connection attempts, streams and handlers do, at most four steps remain; and a run that
      cannot be continued has stopped. */
  lemma {:induction false} StopsAfterCancellation(s: State, steps: seq<Step>)
    requires Single(s) && s.cancelled && Legal(s, steps)
    ensures |steps| <= RankOf(s) <= 4
    ensures (forall step :: !Enabled(Run(s, steps), step)) ==> Run(s, steps).activities == multiset{}
    decreases |steps|
  {
    RankBound(s);
    if steps == [] {
      if s.activities != multiset{} {
        NotStuck(s);
      }
    } else {
      CancelledStepDescends(s, steps[0]);
      StepKeepsSingle(s, steps[0]);
      StopsAfterCancellation(Apply(s, steps[0]), steps[1..]);
    }
  }
}
