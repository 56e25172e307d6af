/** How much a run still has to do: a measure every scheduler step lowers. */
module RunWork {
  import opened Plan
  import opened RunState
  import opened RunSteps
  import opened TaskSteps

  ghost function Sum<T>(f: T -> nat, xs: seq<T>): nat {
    if xs == [] then 0 else f(xs[0]) + Sum(f, xs[1..])
  }

  lemma {:induction false} SumAppend<T>(f: T -> nat, a: seq<T>, b: seq<T>)
    ensures Sum(f, a + b) == Sum(f, a) + Sum(f, b)
  {
    if a == [] {
      assert a + b == b;
    } else {
      assert (a + b)[1..] == a[1..] + b;
      SumAppend(f, a[1..], b);
    }
  }

  lemma {:induction false} SumWithout<T>(f: T -> nat, xs: seq<T>, i: nat)
    requires i < |xs|
    ensures Sum(f, xs) == Sum(f, Without(xs, i)) + f(xs[i])
  {
    if i == 0 {
      assert Without(xs, i) == xs[1..];
    } else {
      SumWithout(f, xs[1..], i - 1);
      assert Without(xs, i)[1..] == Without(xs[1..], i - 1);
    }
  }

  lemma SumUpdate<T>(f: T -> nat, xs: seq<T>, i: nat, x: T)
    requires i < |xs|
    ensures Sum(f, xs[i := x]) + f(xs[i]) == Sum(f, xs) + f(x)
  {
    SumWithout(f, xs, i);
    SumWithout(f, xs[i := x], i);
    assert Without(xs[i := x], i) == Without(xs, i);
  }

  ghost function EntryWeight(e: Entry): nat { Weight(Activate(e)) }

  /** Commands left to spawn, counting two for every restart a service may still take. */
  ghost function Budget(s: State): nat {
    Sum(EntryWeight, Flat(s.stages)) + Sum(EntryWeight, s.queued) + Sum(Weight, s.active) + Sum(Weight, s.services)
  }

  /** Polls the live children will still answer before they exit. */
  ghost function PollsLeft(s: State): nat {
    Sum(ChildFuel, s.active) + Sum(ChildFuel, s.services)
  }

  ghost predicate Less(s': State, s: State) {
    Budget(s') < Budget(s) || (Budget(s') == Budget(s) && PollsLeft(s') < PollsLeft(s))
  }

  ghost predicate NoMore(s': State, s: State) {
    Less(s', s) || (Budget(s') == Budget(s) && PollsLeft(s') == PollsLeft(s))
  }

  lemma StartWork(s: State, limit: Positive, s': State)
    requires StartsStage(s, limit, s')
    ensures NoMore(s', s)
  {
    SumAppend(EntryWeight, StageTasks(s.stages[0]), Flat(s'.stages));
  }

  lemma FillWork(s: State, s': State)
    requires FillsSlot(s, s')
    ensures NoMore(s', s)
  {
    var t := Activate(s.queued[0]);
    SumAppend(Weight, s.active, [t]);
    SumAppend(ChildFuel, s.active, [t]);
  }

  lemma StayWork(s: State, i: nat, t': ActiveTask, s': State)
    requires i < |s.active| && LessWork(t', s.active[i]) && s'.active == s.active[i := t']
    requires s'.stages == s.stages && s'.queued == s.queued && s'.services == s.services
    ensures Less(s', s)
  {
    SumUpdate(Weight, s.active, i, t');
    SumUpdate(ChildFuel, s.active, i, t');
  }

  lemma BackgroundWork(s: State, i: nat, t': ActiveTask, s': State)
    requires i < |s.active| && LessWork(t', s.active[i]) && s'.active == Without(s.active, i)
    requires s'.stages == s.stages && s'.queued == s.queued && s'.services == s.services + [t']
    ensures Less(s', s)
  {
    SumWithout(Weight, s.active, i);
    SumWithout(ChildFuel, s.active, i);
    SumAppend(Weight, s.services, [t']);
    SumAppend(ChildFuel, s.services, [t']);
  }

  lemma LeaveWork(s: State, i: nat, s': State)
    requires i < |s.active| && s'.active == Without(s.active, i)
    requires s'.stages == s.stages && s'.queued == s.queued && s'.services == s.services
    ensures NoMore(s', s)
  {
    SumWithout(Weight, s.active, i);
    SumWithout(ChildFuel, s.active, i);
  }

  lemma ServiceWork(s: State, i: nat, t': ActiveTask, s': State)
    requires i < |s.services| && s'.stages == s.stages && s'.queued == s.queued && s'.active == s.active
    requires (s'.services == s.services[i := t'] && LessWork(t', s.services[i]))
             || (s'.services == Without(s.services, i) && Weight(s.services[i]) + ChildFuel(s.services[i]) > 0)
    ensures Less(s', s)
  {
    SumUpdate(Weight, s.services, i, t');
    SumUpdate(ChildFuel, s.services, i, t');
    SumWithout(Weight, s.services, i);
    SumWithout(ChildFuel, s.services, i);
  }

  /** Work only looks at stages, queue, slots and services. */
  lemma SameWork(s: State, s': State)
    requires s'.stages == s.stages && s'.queued == s.queued && s'.active == s.active && s'.services == s.services
    ensures Budget(s') == Budget(s) && PollsLeft(s') == PollsLeft(s)
  {
  }

  lemma SlotsPositive(c: Config, s: State)
    requires Inv(c, s)
    ensures s.queued != [] ==> s.stageLimit > 0
  {
  }
}
