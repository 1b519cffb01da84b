/** What the steps of a whole run of the load client leave in its queue, its rows and
    its counts. */
module LoadRuns {
  import opened Folds
  import opened LoadAccounting

  lemma {:induction false} RunAppend(maxsize: int, s: State, steps: seq<Step>, last: Step)
    ensures Run(maxsize, s, steps + [last]).Some? ==> Run(maxsize, s, steps).Some?
    ensures Run(maxsize, s, steps).Some? ==>
              Run(maxsize, s, steps + [last]) == Next(maxsize, Run(maxsize, s, steps).value, last)
    decreases |steps|
  {
    if steps == [] {
      assert [] + [last] == [last] && [last][1..] == [];
      var next := Next(maxsize, s, last);
      assert next.Some? ==> Run(maxsize, next.value, []) == next;
    } else {
      assert (steps + [last])[1..] == steps[1..] + [last];
      var next := Next(maxsize, s, steps[0]);
      if next.Some? {
        RunAppend(maxsize, next.value, steps[1..], last);
      }
    }
  }

  /** The run before its last step. */
  lemma LastStep(maxsize: int, s: State, steps: seq<Step>)
    requires steps != [] && Run(maxsize, s, steps).Some?
    ensures var init := steps[..|steps| - 1];
            && Run(maxsize, s, init).Some?
            && Next(maxsize, Run(maxsize, s, init).value, steps[|steps| - 1]) == Run(maxsize, s, steps)
  {
    var init := steps[..|steps| - 1];
    assert steps == init + [steps[|steps| - 1]];
    RunAppend(maxsize, s, init, steps[|steps| - 1]);
  }

  // ---- The counts by class ----

  /** The step chose a file of the given class. */
  function Chose(small: bool): Step -> nat {
    (step: Step) => if step.Put? && step.small == small then 1 else 0
  }

  function Label(small: bool): string {
    if small then "small" else "large"
  }

  function HasType(ftype: string): Item -> nat {
    (item: Item) => if item.ftype == ftype then 1 else 0
  }

  lemma LabelsDiffer(small: bool)
    ensures Label(small) != Label(!small)
  {
    assert "small"[0] != "large"[0];
  }

  /** The dispatcher's choices among the steps. */
  function PutsOf(steps: seq<Step>): (puts: seq<Step>)
    ensures forall k :: 0 <= k < |puts| ==> puts[k].Put?
    decreases |steps|
  {
    if steps == [] then []
    else
      var last := steps[|steps| - 1];
      PutsOf(steps[..|steps| - 1]) + if last.Put? then [last] else []
  }

  /** The items are the dispatcher's choices: the file, its class and the reading. */
  lemma {:induction false} DispatchesAreTheChoices(maxsize: int, s0: State, steps: seq<Step>)
    requires Init(s0) && Run(maxsize, s0, steps).Some?
    ensures var items, puts := Run(maxsize, s0, steps).value.dispatched, PutsOf(steps);
            && |items| == |puts|
            && forall k :: 0 <= k < |items| ==>
                 items[k].uri == puts[k].uri && items[k].at == puts[k].at && items[k].ftype == Label(puts[k].small)
    decreases |steps|
  {
    if steps != [] {
      LastStep(maxsize, s0, steps);
      DispatchesAreTheChoices(maxsize, s0, steps[..|steps| - 1]);
    }
  }

  lemma OneDispatch(maxsize: int, s: State, step: Step, small: bool)
    requires Next(maxsize, s, step).Some?
    ensures Count(HasType(Label(small)), Next(maxsize, s, step).value.dispatched) ==
            Count(HasType(Label(small)), s.dispatched) + Chose(small)(step)
  {
    LabelsDiffer(small);
    var after := Next(maxsize, s, step).value.dispatched;
    if step.Put? {
      assert after[..|after| - 1] == s.dispatched;
    }
  }

  lemma {:induction false} DispatchesByClass(maxsize: int, s0: State, steps: seq<Step>, small: bool)
    requires Init(s0) && Run(maxsize, s0, steps).Some?
    ensures Count(HasType(Label(small)), Run(maxsize, s0, steps).value.dispatched) == Count(Chose(small), steps)
    decreases |steps|
  {
    if steps != [] {
      var init := steps[..|steps| - 1];
      LastStep(maxsize, s0, steps);
      DispatchesByClass(maxsize, s0, init, small);
      OneDispatch(maxsize, Run(maxsize, s0, init).value, steps[|steps| - 1], small);
    }
  }

  lemma {:induction false} OfTypeIsCount(rows: seq<Row>, ftype: string)
    ensures OfType(rows, ftype) == Count(HasType(ftype), ItemsOf(rows))
    decreases |rows|
  {
    if rows != [] {
      OfTypeIsCount(rows[1..], ftype);
      CountFirst(HasType(ftype), ItemsOf(rows));
      assert ItemsOf(rows)[1..] == ItemsOf(rows[1..]);
    }
  }

  /** When join has returned, n_small is the number of times that the dispatcher chose
      a small file, and n_large that it chose a large one. */
  lemma RowsByClass(maxsize: int, s0: State, steps: seq<Step>)
    requires Init(s0) && Run(maxsize, s0, steps).Some? && Run(maxsize, s0, steps).value.dispatcher.Joined?
    ensures var rows := Run(maxsize, s0, steps).value.rows;
            && OfType(rows, "small") == Count(Chose(true), steps)
            && OfType(rows, "large") == Count(Chose(false), steps)
  {
    var s := Run(maxsize, s0, steps).value;
    assert Reachable(maxsize, s);
    RowsAreTheDispatches(maxsize, s);
    DispatchesByClass(maxsize, s0, steps, true);
    DispatchesByClass(maxsize, s0, steps, false);
    OfTypeIsCount(s.rows, "small");
    OfTypeIsCount(s.rows, "large");
    CountOfBag(HasType("small"), ItemsOf(s.rows), s.dispatched);
    CountOfBag(HasType("large"), ItemsOf(s.rows), s.dispatched);
  }

  // ---- The queue ----

  predicate IsSuffix(queue: seq<Item>, all: seq<Item>) {
    |queue| <= |all| && queue == all[|all| - |queue|..]
  }

  lemma SuffixMoves(queue: seq<Item>, all: seq<Item>, item: Item)
    requires IsSuffix(queue, all)
    ensures IsSuffix(queue + [item], all + [item])
    ensures queue != [] ==> IsSuffix(queue[1..], all)
  {
  }

  /** The queue holds the latest dispatches in order, no more than it has room for,
      and nobody leaves before the stop flag is set. */
  predicate Orderly(maxsize: int, s: State) {
    && IsSuffix(s.queue, s.dispatched)
    && (maxsize > 0 ==> |s.queue| <= maxsize)
    && (s.dispatcher.Dispatching? ==> forall w :: 0 <= w < |s.workers| ==> !s.workers[w].Gone?)
  }

  lemma NextIsOrderly(maxsize: int, s: State, step: Step)
    requires Orderly(maxsize, s) && Next(maxsize, s, step).Some?
    ensures Orderly(maxsize, Next(maxsize, s, step).value)
  {
    var s' := Next(maxsize, s, step).value;
    if step.Put? {
      SuffixMoves(s.queue, s.dispatched, NewItem(step.uri, step.small, step.at));
    } else if step.Take? {
      SuffixMoves(s.queue, s.dispatched, s.queue[0]);
      assert s'.queue == s.queue[1..];
    } else {
      assert s'.queue == s.queue && s'.dispatched == s.dispatched;
    }
  }

  /** Workers take the items in the order in which they were dispatched, the queue
      never holds more than maxsize, and no worker gives up before the stop flag. */
  lemma {:induction false} RunIsOrderly(maxsize: int, s0: State, steps: seq<Step>)
    requires Init(s0) && Run(maxsize, s0, steps).Some?
    ensures Orderly(maxsize, Run(maxsize, s0, steps).value)
    decreases |steps|
  {
    if steps != [] {
      LastStep(maxsize, s0, steps);
      RunIsOrderly(maxsize, s0, steps[..|steps| - 1]);
      NextIsOrderly(maxsize, Run(maxsize, s0, steps[..|steps| - 1]).value, steps[|steps| - 1]);
    }
  }

  /** The dispatcher can get n items ahead of the workers if and only if the queue has
      room for them; a queue with no positive maxsize has room for all. */
  lemma {:induction false} GetsAhead(maxsize: int, s0: State, item: Step, n: nat) returns (steps: seq<Step>)
    requires Init(s0) && item.Put? && (maxsize <= 0 || n <= maxsize)
    ensures Run(maxsize, s0, steps).Some?
    ensures |Run(maxsize, s0, steps).value.queue| == n && Run(maxsize, s0, steps).value.dispatcher.Dispatching?
    ensures Next(maxsize, Run(maxsize, s0, steps).value, item).Some? <==> maxsize <= 0 || n < maxsize
  {
    if n == 0 {
      steps := [];
    } else {
      var init := GetsAhead(maxsize, s0, item, n - 1);
      steps := init + [item];
      RunAppend(maxsize, s0, init, item);
    }
  }

  // ---- Each row ----

  predicate IsOf(step: Step, w: nat) {
    (step.Take? || step.TimeOut? || step.LookAtStop? || step.Append? || step.TaskDone?) && step.w == w
  }

  /** Step k is worker w's taking of item, and the worker has done nothing since. */
  predicate TookAt(maxsize: int, s0: State, steps: seq<Step>, w: nat, item: Item, k: nat) {
    && k < |steps| && steps[k] == Take(w)
    && (forall m :: k < m < |steps| ==> !IsOf(steps[m], w))
    && Run(maxsize, s0, steps[..k]).Some?
    && Run(maxsize, s0, steps[..k]).value.queue != []
    && Run(maxsize, s0, steps[..k]).value.queue[0] == item
  }

  lemma FetchingStarts(maxsize: int, s: State, step: Step, w: nat)
    requires Next(maxsize, s, step).Some? && w < |Next(maxsize, s, step).value.workers|
    requires Next(maxsize, s, step).value.workers[w].Fetching?
    ensures w < |s.workers|
    ensures IsOf(step, w) ==>
              step == Take(w) && s.queue != [] && Next(maxsize, s, step).value.workers[w].item == s.queue[0]
    ensures !IsOf(step, w) ==> Next(maxsize, s, step).value.workers[w] == s.workers[w]
  {
  }

  lemma TookNow(maxsize: int, s0: State, steps: seq<Step>, w: nat, item: Item)
    requires steps != [] && steps[|steps| - 1] == Take(w)
    requires var before := Run(maxsize, s0, steps[..|steps| - 1]);
             before.Some? && before.value.queue != [] && before.value.queue[0] == item
    ensures TookAt(maxsize, s0, steps, w, item, |steps| - 1)
  {
  }

  lemma TookEarlier(maxsize: int, s0: State, steps: seq<Step>, w: nat, item: Item, k: nat)
    requires steps != [] && !IsOf(steps[|steps| - 1], w)
    requires TookAt(maxsize, s0, steps[..|steps| - 1], w, item, k)
    ensures TookAt(maxsize, s0, steps, w, item, k)
  {
    assert steps[..k] == steps[..|steps| - 1][..k];
  }

  /** A worker that waits for the server waits for the item that it took last. */
  lemma {:induction false} FetchesWhatItTook(maxsize: int, s0: State, steps: seq<Step>, w: nat) returns (k: nat)
    requires Init(s0) && Run(maxsize, s0, steps).Some? && w < |Run(maxsize, s0, steps).value.workers|
    requires Run(maxsize, s0, steps).value.workers[w].Fetching?
    ensures TookAt(maxsize, s0, steps, w, Run(maxsize, s0, steps).value.workers[w].item, k)
    decreases |steps|
  {
    var last := steps[|steps| - 1];
    var init := steps[..|steps| - 1];
    LastStep(maxsize, s0, steps);
    FetchingStarts(maxsize, Run(maxsize, s0, init).value, last, w);
    if IsOf(last, w) {
      k := |steps| - 1;
      TookNow(maxsize, s0, steps, w, Run(maxsize, s0, init).value.queue[0]);
    } else {
      k := FetchesWhatItTook(maxsize, s0, init, w);
      TookEarlier(maxsize, s0, steps, w, Run(maxsize, s0, init).value.workers[w].item, k);
    }
  }

  function IsAppend(): Step -> nat {
    (step: Step) => if step.Append? then 1 else 0
  }

  /** Step i records row j: the worker's answer with the item that the worker took
      last before it. */
  ghost predicate RecordedAt(maxsize: int, s0: State, steps: seq<Step>, row: Row, j: nat, i: nat) {
    && i < |steps| && steps[i].Append? && steps[i].answer == row.answer
    && Count(IsAppend(), steps[..i]) == j
    && exists k: nat :: TookAt(maxsize, s0, steps[..i], steps[i].w, row.item, k)
  }

  lemma RecordedEarlier(maxsize: int, s0: State, init: seq<Step>, steps: seq<Step>, row: Row, j: nat, i: nat)
    requires init <= steps && RecordedAt(maxsize, s0, init, row, j, i)
    ensures RecordedAt(maxsize, s0, steps, row, j, i)
  {
    assert steps[..i] == init[..i];
  }

  lemma {:induction false} RowsAreCounted(maxsize: int, s0: State, steps: seq<Step>)
    requires Init(s0) && Run(maxsize, s0, steps).Some?
    ensures |Run(maxsize, s0, steps).value.rows| == Count(IsAppend(), steps)
    decreases |steps|
  {
    if steps != [] {
      LastStep(maxsize, s0, steps);
      RowsAreCounted(maxsize, s0, steps[..|steps| - 1]);
    }
  }

  /** The j-th row is recorded by the j-th append: the answer that it brought, with
      the item that its worker took last before. */
  lemma {:induction false} EachRowIsAnAppend(maxsize: int, s0: State, steps: seq<Step>, j: nat) returns (i: nat)
    requires Init(s0) && Run(maxsize, s0, steps).Some? && j < |Run(maxsize, s0, steps).value.rows|
    ensures RecordedAt(maxsize, s0, steps, Run(maxsize, s0, steps).value.rows[j], j, i)
    decreases |steps|
  {
    var last := steps[|steps| - 1];
    var init := steps[..|steps| - 1];
    LastStep(maxsize, s0, steps);
    RowsAreCounted(maxsize, s0, init);
    if last.Append? && j == |Run(maxsize, s0, init).value.rows| {
      var k := FetchesWhatItTook(maxsize, s0, init, last.w);
      i := |steps| - 1;
    } else {
      i := EachRowIsAnAppend(maxsize, s0, init, j);
      RecordedEarlier(maxsize, s0, init, steps, Run(maxsize, s0, init).value.rows[j], j, i);
    }
  }
}
