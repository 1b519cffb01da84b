/** The load client's books: its dispatcher, the bounded work queue, the workers and
    the rows they record, one step of one thread at a time. */
module LoadAccounting {
  import opened Requests
  import opened Folds

  datatype Item = Item(uri: string, ftype: string, at: real)
  datatype Answer = Answered(latency: real, status: int, size: nat) | Failed
  datatype Row = Row(item: Item, answer: Answer)

  /** Where a worker is: about to take an item, out of the queue's time-out and
      about to look at the stop flag, waiting for the server, between recording
      and task_done, or past its loop. */
  datatype Worker = Taking | SawEmpty | Fetching(item: Item) | Recorded | Gone

  /** The stop flag is set on the way from Dispatching to Joining. */
  datatype Dispatcher = Dispatching | Joining | Joined

  /** dispatched is the history of what was put. */
  datatype State = State(queue: seq<Item>, unfinished: int, workers: seq<Worker>, rows: seq<Row>,
                         dispatcher: Dispatcher, dispatched: seq<Item>)

  datatype Step =
    | Put(uri: string, small: bool, at: real)
    | Stop
    | JoinReturns
    | Take(w: nat)
    | TimeOut(w: nat)
    | LookAtStop(w: nat)
    | Append(w: nat, answer: Answer)
    | TaskDone(w: nat)

  function NewItem(uri: string, small: bool, at: real): Item {
    Item(uri, if small then "small" else "large", at)
  }

  predicate Init(s: State) {
    && s.queue == [] && s.unfinished == 0 && s.rows == [] && s.dispatched == []
    && s.dispatcher == Dispatching
    && forall w :: 0 <= w < |s.workers| ==> s.workers[w] == Taking
  }

  /** The steps of the dispatcher; a queue whose maxsize is not positive is never full. */
  function DispatcherStep(maxsize: int, s: State, step: Step): Option<State> {
    match step
    case Put(uri, small, at) =>
      if s.dispatcher.Dispatching? && (maxsize <= 0 || |s.queue| < maxsize) then
        var item := NewItem(uri, small, at);
        Some(s.(queue := s.queue + [item], unfinished := s.unfinished + 1, dispatched := s.dispatched + [item]))
      else None
    case Stop => if s.dispatcher.Dispatching? then Some(s.(dispatcher := Joining)) else None
    case _ => if s.dispatcher.Joining? && s.unfinished == 0 then Some(s.(dispatcher := Joined)) else None
  }

  function Becomes(s: State, w: nat, pc: Worker): State
    requires w < |s.workers|
  {
    s.(workers := s.workers[w := pc])
  }

  /** The steps of worker w (worker_safe). */
  function WorkerStep(s: State, w: nat, step: Step): Option<State>
    requires w < |s.workers|
  {
    var pc := s.workers[w];
    match step
    case Take(_) =>
      if pc.Taking? && s.queue != [] then Some(Becomes(s, w, Fetching(s.queue[0])).(queue := s.queue[1..])) else None
    case TimeOut(_) =>
      if pc.Taking? && s.queue == [] then Some(Becomes(s, w, SawEmpty)) else None
    case LookAtStop(_) =>
      if pc.SawEmpty? then Some(Becomes(s, w, if s.dispatcher.Dispatching? then Taking else Gone)) else None
    case Append(_, answer) =>
      if pc.Fetching? then Some(Becomes(s, w, Recorded).(rows := s.rows + [Row(pc.item, answer)])) else None
    case _ =>
      if pc.Recorded? then Some(Becomes(s, w, Taking).(unfinished := s.unfinished - 1)) else None
  }

  function Next(maxsize: int, s: State, step: Step): Option<State> {
    if step.Put? || step.Stop? || step.JoinReturns? then DispatcherStep(maxsize, s, step)
    else if step.w < |s.workers| then WorkerStep(s, step.w, step)
    else None
  }

  function Run(maxsize: int, s: State, steps: seq<Step>): Option<State>
    decreases |steps|
  {
    if steps == [] then Some(s)
    else
      var next := Next(maxsize, s, steps[0]);
      if next.None? then None else Run(maxsize, next.value, steps[1..])
  }

  ghost predicate Reachable(maxsize: int, s: State) {
    exists s0, steps :: Init(s0) && Run(maxsize, s0, steps) == Some(s)
  }

  // ---- Sums over the workers ----

  /** What a sum over the workers counts: those fetching the given item (or any
      item), those that owe a task_done, or the steps they may still take by
      themselves once the stop flag is set. */
  datatype Measure = OfItem(item: Option<Item>) | OfOwing | OfEffort

  function Is(item: Item, x: Option<Item>): nat {
    if x == None || x == Some(item) then 1 else 0
  }

  function Weight(pc: Worker, m: Measure): nat {
    match m
    case OfItem(x) => if pc.Fetching? then Is(pc.item, x) else 0
    case OfOwing => if pc.Fetching? || pc.Recorded? then 1 else 0
    case OfEffort =>
      match pc {
        case Gone => 0
        case SawEmpty => 1
        case Taking => 2
        case Recorded => 3
        case Fetching(_) => 4
      }
  }

  function Weighed(m: Measure): Worker -> nat {
    pc => Weight(pc, m)
  }

  function Sum(ws: seq<Worker>, m: Measure): nat {
    Count(Weighed(m), ws)
  }

  // ---- Counting items and rows ----

  function IsOne(x: Option<Item>): Item -> nat {
    item => Is(item, x)
  }

  function Tally(items: seq<Item>, x: Option<Item>): nat {
    Count(IsOne(x), items)
  }

  function ItemsOf(rows: seq<Row>): (items: seq<Item>)
    ensures |items| == |rows|
    ensures forall k :: 0 <= k < |rows| ==> items[k] == rows[k].item
    decreases |rows|
  {
    if rows == [] then [] else [rows[0].item] + ItemsOf(rows[1..])
  }

  lemma TallyOfAppend(items: seq<Item>, last: Item, x: Option<Item>)
    ensures Tally(items + [last], x) == Tally(items, x) + Is(last, x)
  {
    assert (items + [last])[..|items|] == items;
  }

  lemma TallyOfFirst(items: seq<Item>, x: Option<Item>)
    requires items != []
    ensures Tally(items, x) == Is(items[0], x) + Tally(items[1..], x)
  {
    assert items == [items[0]] + items[1..];
    CountConcat(IsOne(x), [items[0]], items[1..]);
    CountOne(IsOne(x), items[0]);
  }

  lemma {:induction false} TallyIsMultiplicity(items: seq<Item>, x: Item)
    ensures Tally(items, Some(x)) == multiset(items)[x]
    decreases |items|
  {
    if items != [] {
      var init := items[..|items| - 1];
      assert items == init + [items[|items| - 1]];
      TallyIsMultiplicity(init, x);
    }
  }

  lemma {:induction false} TallyOfAllIsLength(items: seq<Item>)
    ensures Tally(items, None) == |items|
    decreases |items|
  {
    if items != [] {
      TallyOfAllIsLength(items[..|items| - 1]);
    }
  }

  // ---- The books ----

  /** Of every item: as many put as queued, being fetched and recorded together. */
  ghost predicate Balanced(s: State) {
    && (forall x :: Tally(s.dispatched, x) ==
                    Tally(s.queue, x) + Sum(s.workers, OfItem(x)) + Tally(ItemsOf(s.rows), x))
    && s.unfinished == |s.queue| + Sum(s.workers, OfOwing)
    && (s.dispatcher.Joined? ==> s.unfinished == 0)
  }

  lemma StartsBalanced(s: State)
    requires Init(s)
    ensures Balanced(s)
  {
    CountNone(Weighed(OfOwing), s.workers);
    forall x ensures Sum(s.workers, OfItem(x)) == 0 {
      CountNone(Weighed(OfItem(x)), s.workers);
    }
  }

  lemma WorkerStepBalances(s: State, w: nat, step: Step)
    requires Balanced(s) && w < |s.workers| && WorkerStep(s, w, step).Some?
    ensures Balanced(WorkerStep(s, w, step).value)
  {
    var s' := WorkerStep(s, w, step).value;
    CountUpdate(Weighed(OfOwing), s.workers, w, s'.workers[w]);
    CountAtLeast(Weighed(OfOwing), s.workers, w);
    forall x ensures Tally(s'.dispatched, x) ==
                     Tally(s'.queue, x) + Sum(s'.workers, OfItem(x)) + Tally(ItemsOf(s'.rows), x)
    {
      CountUpdate(Weighed(OfItem(x)), s.workers, w, s'.workers[w]);
      if step.Take? {
        TallyOfFirst(s.queue, x);
      }
      if step.Append? {
        assert ItemsOf(s'.rows) == ItemsOf(s.rows) + [s.workers[w].item];
        TallyOfAppend(ItemsOf(s.rows), s.workers[w].item, x);
      }
    }
  }

  lemma NextBalances(maxsize: int, s: State, step: Step)
    requires Balanced(s) && Next(maxsize, s, step).Some?
    ensures Balanced(Next(maxsize, s, step).value)
  {
    var s' := Next(maxsize, s, step).value;
    if step.Put? {
      var item := NewItem(step.uri, step.small, step.at);
      forall x ensures Tally(s'.dispatched, x) ==
                       Tally(s'.queue, x) + Sum(s'.workers, OfItem(x)) + Tally(ItemsOf(s'.rows), x)
      {
        TallyOfAppend(s.queue, item, x);
        TallyOfAppend(s.dispatched, item, x);
      }
    } else if !step.Stop? && !step.JoinReturns? {
      WorkerStepBalances(s, step.w, step);
    }
  }

  lemma {:induction false} RunBalances(maxsize: int, s: State, steps: seq<Step>)
    requires Balanced(s) && Run(maxsize, s, steps).Some?
    ensures Balanced(Run(maxsize, s, steps).value)
    decreases |steps|
  {
    if steps != [] {
      NextBalances(maxsize, s, steps[0]);
      RunBalances(maxsize, Next(maxsize, s, steps[0]).value, steps[1..]);
    }
  }

  lemma ReachableBalances(maxsize: int, s: State)
    requires Reachable(maxsize, s)
    ensures Balanced(s)
  {
    var s0, steps :| Init(s0) && Run(maxsize, s0, steps) == Some(s);
    StartsBalanced(s0);
    RunBalances(maxsize, s0, steps);
  }

  predicate Labelled(items: seq<Item>) {
    forall k :: 0 <= k < |items| ==> items[k].ftype == "small" || items[k].ftype == "large"
  }

  lemma {:induction false} RunLabels(maxsize: int, s: State, steps: seq<Step>)
    requires Labelled(s.dispatched) && Run(maxsize, s, steps).Some?
    ensures Labelled(Run(maxsize, s, steps).value.dispatched)
    decreases |steps|
  {
    if steps != [] {
      RunLabels(maxsize, Next(maxsize, s, steps[0]).value, steps[1..]);
    }
  }

  /** How many rows carry the label (n_small, n_large). */
  function OfType(rows: seq<Row>, ftype: string): nat
    decreases |rows|
  {
    if rows == [] then 0 else (if rows[0].item.ftype == ftype then 1 else 0) + OfType(rows[1..], ftype)
  }

  lemma {:induction false} TypesAddUp(rows: seq<Row>)
    requires Labelled(ItemsOf(rows))
    ensures OfType(rows, "small") + OfType(rows, "large") == |rows|
    decreases |rows|
  {
    if rows != [] {
      assert ItemsOf(rows)[0] == rows[0].item;
      assert forall k :: 0 <= k < |rows| - 1 ==> ItemsOf(rows[1..])[k] == ItemsOf(rows)[k + 1];
      TypesAddUp(rows[1..]);
    }
  }

  /** Whenever join has returned, the rows are the dispatched items, each as often
      as it was dispatched, and every row is counted as small or as large. */
  lemma RowsAreTheDispatches(maxsize: int, s: State)
    requires Reachable(maxsize, s) && s.dispatcher.Joined?
    ensures multiset(ItemsOf(s.rows)) == multiset(s.dispatched)
    ensures OfType(s.rows, "small") + OfType(s.rows, "large") == |s.rows| == |s.dispatched|
  {
    ReachableBalances(maxsize, s);
    NobodyFetches(s);
    forall x ensures multiset(ItemsOf(s.rows))[x] == multiset(s.dispatched)[x] {
      TallyIsMultiplicity(ItemsOf(s.rows), x);
      TallyIsMultiplicity(s.dispatched, x);
    }
    TallyOfAllIsLength(ItemsOf(s.rows));
    TallyOfAllIsLength(s.dispatched);
    var s0, steps :| Init(s0) && Run(maxsize, s0, steps) == Some(s);
    RunLabels(maxsize, s0, steps);
    RowsAreLabelled(s);
    TypesAddUp(s.rows);
  }

  lemma NobodyFetches(s: State)
    requires Balanced(s) && s.unfinished == 0
    ensures forall x :: Tally(s.dispatched, x) == Tally(ItemsOf(s.rows), x)
  {
    forall x ensures Sum(s.workers, OfItem(x)) == 0 {
      forall w | 0 <= w < |s.workers| ensures Weight(s.workers[w], OfItem(x)) == 0 {
        CountAtLeast(Weighed(OfOwing), s.workers, w);
      }
      CountNone(Weighed(OfItem(x)), s.workers);
    }
  }

  lemma RowsAreLabelled(s: State)
    requires Labelled(s.dispatched) && multiset(ItemsOf(s.rows)) == multiset(s.dispatched)
    ensures Labelled(ItemsOf(s.rows))
  {
    forall k | 0 <= k < |s.rows|
      ensures ItemsOf(s.rows)[k].ftype == "small" || ItemsOf(s.rows)[k].ftype == "large"
    {
      assert ItemsOf(s.rows)[k] in multiset(ItemsOf(s.rows));
      assert ItemsOf(s.rows)[k] in multiset(s.dispatched);
      assert ItemsOf(s.rows)[k] in s.dispatched;
    }
  }

  // ---- Whether join returns ----

  predicate AtWork(pc: Worker) {
    pc.Taking? || pc.Fetching? || pc.Recorded?
  }

  /** Nothing waits in the queue, or some worker will come back to it. */
  ghost predicate Drainable(s: State) {
    s.queue == [] || exists w :: 0 <= w < |s.workers| && AtWork(s.workers[w])
  }

  /** No thread can take a step. */
  ghost predicate AtRest(maxsize: int, s: State) {
    forall step :: Next(maxsize, s, step).None?
  }

  function Effort(s: State): nat {
    3 * |s.queue| + Sum(s.workers, OfEffort) + if s.dispatcher.Joined? then 0 else 1
  }

  /** Once the stop flag is set, every step uses up some effort and leaves the
      queue as drainable as it was. */
  lemma StoppedStep(maxsize: int, s: State, step: Step)
    requires !s.dispatcher.Dispatching? && Next(maxsize, s, step).Some?
    ensures var s' := Next(maxsize, s, step).value;
            !s'.dispatcher.Dispatching? && Effort(s') < Effort(s) && (Drainable(s') <==> Drainable(s))
  {
    if !step.JoinReturns? {
      var w, s' := step.w, Next(maxsize, s, step).value;
      CountUpdate(Weighed(OfEffort), s.workers, w, s'.workers[w]);
      if v :| 0 <= v < |s.workers| && AtWork(s.workers[v]) {
        assert step.TimeOut? || AtWork(s'.workers[v]);
      }
    }
  }

  lemma {:induction false} StoppedRun(maxsize: int, s: State, steps: seq<Step>)
    requires !s.dispatcher.Dispatching? && Run(maxsize, s, steps).Some?
    ensures var s' := Run(maxsize, s, steps).value;
            !s'.dispatcher.Dispatching? && Effort(s') + |steps| <= Effort(s) && (Drainable(s') <==> Drainable(s))
    decreases |steps|
  {
    if steps != [] {
      StoppedStep(maxsize, s, steps[0]);
      StoppedRun(maxsize, Next(maxsize, s, steps[0]).value, steps[1..]);
    }
  }

  lemma RestingDrainableHasJoined(maxsize: int, s: State)
    requires Balanced(s) && AtRest(maxsize, s) && !s.dispatcher.Dispatching? && Drainable(s)
    ensures s.dispatcher.Joined?
  {
    forall w | 0 <= w < |s.workers| ensures !s.workers[w].Fetching? && !s.workers[w].Recorded? {
      assert Next(maxsize, s, Append(w, Failed)).None?;
      assert Next(maxsize, s, TaskDone(w)).None?;
    }
    if w :| 0 <= w < |s.workers| && AtWork(s.workers[w]) {
      assert Next(maxsize, s, Take(w)).None?;
    }
    CountNone(Weighed(OfOwing), s.workers);
    assert Next(maxsize, s, JoinReturns).None?;
  }

  /** After the stop flag is set, the threads take at most Effort more steps; when
      they have come to rest, join has returned if and only if, at the moment the
      flag was set, the queue was empty or some worker was not already past its
      last look at the queue. */
  lemma JoinReturnsIff(maxsize: int, s: State, steps: seq<Step>)
    requires Reachable(maxsize, s) && s.dispatcher.Joining? && Run(maxsize, s, steps).Some?
    requires AtRest(maxsize, Run(maxsize, s, steps).value)
    ensures |steps| <= Effort(s)
    ensures Run(maxsize, s, steps).value.dispatcher.Joined? <==>
              s.queue == [] || exists w :: 0 <= w < |s.workers| && AtWork(s.workers[w])
  {
    var s' := Run(maxsize, s, steps).value;
    ReachableBalances(maxsize, s);
    RunBalances(maxsize, s, steps);
    StoppedRun(maxsize, s, steps);
    if Drainable(s') {
      RestingDrainableHasJoined(maxsize, s');
    }
  }

  /** The other case happens: the only worker finds the queue empty, an item is
      put, the flag is set, and the worker leaves. The item stays and join never
      returns. */
  lemma AnItemCanBeStranded(uri: string, at: real)
    ensures var s0 := State([], 0, [Taking], [], Dispatching, []);
            var s := Run(3, s0, [TimeOut(0), Put(uri, true, at), Stop, LookAtStop(0)]);
            && Init(s0) && s.Some? && AtRest(3, s.value)
            && s.value.dispatcher.Joining? && s.value.rows == [] && |s.value.queue| == 1
  {
    var s0 := State([], 0, [Taking], [], Dispatching, []);
    var s1 := s0.(workers := [SawEmpty]);
    var item := NewItem(uri, true, at);
    var s2 := s1.(queue := [item], unfinished := 1, dispatched := [item]);
    var s3 := s2.(dispatcher := Joining);
    var s4 := s3.(workers := [Gone]);
    assert [] + [item] == [item];
    assert s0.workers[0 := SawEmpty] == [SawEmpty] && s3.workers[0 := Gone] == [Gone];
    assert Next(3, s0, TimeOut(0)) == Some(s1);
    assert Next(3, s1, Put(uri, true, at)) == Some(s2);
    assert Next(3, s2, Stop) == Some(s3);
    assert Next(3, s3, LookAtStop(0)) == Some(s4);
    var steps := [TimeOut(0), Put(uri, true, at), Stop, LookAtStop(0)];
    assert steps[1..] == [Put(uri, true, at), Stop, LookAtStop(0)];
    assert steps[1..][1..] == [Stop, LookAtStop(0)];
    assert [Stop, LookAtStop(0)][1..] == [LookAtStop(0)];
    assert [LookAtStop(0)][1..] == [];
    assert Run(3, s4, []) == Some(s4);
    assert Run(3, s3, [LookAtStop(0)]) == Some(s4);
    assert Run(3, s2, [Stop, LookAtStop(0)]) == Some(s4);
    assert Run(3, s1, steps[1..]) == Some(s4);
  }
}
