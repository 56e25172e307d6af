/** Run plans: tasks, stages with barriers, and the numbering that gives every
    planned task an identity of its own (`src/plan.rs`). */
module Plan {

  datatype Option<+T> = None | Some(value: T)

  datatype CommandLine = Shell(text: string) | Argv(words: seq<string>)
  {
    /** Human-readable form; a restarted service is queued again in this form. */
    function Display(): string {
      match this
      case Shell(text) => text
      case Argv(words) => Join(words)
    }
  }

  function Join(words: seq<string>): string {
    if |words| == 0 then ""
    else if |words| == 1 then words[0]
    else words[0] + " " + Join(words[1..])
  }

  /** Words are joined with one blank between any two of them. */
  lemma {:induction false} JoinAppend(a: seq<string>, b: seq<string>)
    requires a != [] && b != []
    ensures Join(a + b) == Join(a) + " " + Join(b) && forall word :: Join([word]) == word
  {
    if |a| == 1 {
      assert (a + b)[1..] == b;
    } else {
      JoinAppend(a[1..], b);
      assert (a + b)[1..] == a[1..] + b && (a + b)[0] == a[0];
    }
  }

  datatype TaskPlan = TaskPlan(
    name: string,
    position: nat,
    commands: seq<CommandLine>,
    recovery: Option<seq<CommandLine>>,
    group: Option<string>,
    cwd: Option<string>,
    service: bool)

  datatype Stage<T> = Serial(task: T) | Parallel(group: string, tasks: seq<T>)

  function StageTasks<T>(stage: Stage<T>): seq<T> {
    match stage
    case Serial(task) => [task]
    case Parallel(_, tasks) => tasks
  }

  function Flat<T>(stages: seq<Stage<T>>): seq<T> {
    if stages == [] then [] else StageTasks(stages[0]) + Flat(stages[1..])
  }

  lemma {:induction false} FlatAppend<T>(a: seq<Stage<T>>, b: seq<Stage<T>>)
    ensures Flat(a + b) == Flat(a) + Flat(b)
  {
    if a == [] {
      assert a + b == b;
    } else {
      assert (a + b)[1..] == a[1..] + b;
      FlatAppend(a[1..], b);
    }
  }

  function TaskCommands(tasks: seq<TaskPlan>): seq<CommandLine> {
    if tasks == [] then [] else tasks[0].commands + TaskCommands(tasks[1..])
  }

  /** `RunPlan::commands`: the plan flattened into one ordered command list. */
  function PlanCommands(stages: seq<Stage<TaskPlan>>): seq<CommandLine> {
    if stages == [] then []
    else match stages[0]
         case Serial(task) => task.commands + PlanCommands(stages[1..])
         case Parallel(_, tasks) => TaskCommands(tasks) + PlanCommands(stages[1..])
  }

  lemma {:induction false} TaskCommandsAppend(a: seq<TaskPlan>, b: seq<TaskPlan>)
    ensures TaskCommands(a + b) == TaskCommands(a) + TaskCommands(b)
  {
    if a == [] {
      assert a + b == b;
    } else {
      TaskCommandsAppend(a[1..], b);
      assert (a + b)[1..] == a[1..] + b && (a + b)[0] == a[0];
      assert TaskCommands(a + b) == a[0].commands + (TaskCommands(a[1..]) + TaskCommands(b));
    }
  }

  lemma TaskCommandsSnoc(tasks: seq<TaskPlan>, t: TaskPlan)
    ensures TaskCommands(tasks + [t]) == TaskCommands(tasks) + t.commands
  {
    TaskCommandsAppend(tasks, [t]);
    assert TaskCommands([t]) == t.commands + TaskCommands([]);
  }

  lemma {:induction false} FlatCommands(stages: seq<Stage<TaskPlan>>)
    ensures PlanCommands(stages) == TaskCommands(Flat(stages))
  {
    if stages != [] {
      FlatCommands(stages[1..]);
      var head := StageTasks(stages[0]);
      TaskCommandsAppend(head, Flat(stages[1..]));
      if stages[0].Serial? { TaskCommandsSnoc([], stages[0].task); assert [] + [stages[0].task] == [stages[0].task]; }
    }
  }

  /** One planned task with its identity. The source moves a `TaskPlan` by
      ownership from container to container; the ticket is that identity made
      visible, and `stage` is the number of stages planned before its own. */
  datatype Entry = Entry(ticket: nat, stage: nat, plan: TaskPlan)

  function NumberTasks(tasks: seq<TaskPlan>, ticket: nat, stage: nat): (es: seq<Entry>)
    ensures |es| == |tasks|
    ensures forall i :: 0 <= i < |es| ==> es[i] == Entry(ticket + i, stage, tasks[i])
  {
    seq(|tasks|, i requires 0 <= i < |tasks| => Entry(ticket + i, stage, tasks[i]))
  }

  function NumberStage(stage: Stage<TaskPlan>, ticket: nat, number: nat): (r: Stage<Entry>)
    ensures StageTasks(r) == NumberTasks(StageTasks(stage), ticket, number)
    ensures r.Serial? <==> stage.Serial?
  {
    match stage
    case Serial(task) => Serial(Entry(ticket, number, task))
    case Parallel(group, tasks) => Parallel(group, NumberTasks(tasks, ticket, number))
  }

  /** Numbers the tasks of a plan from `ticket` and its stages from `number`. */
  function Number(stages: seq<Stage<TaskPlan>>, ticket: nat, number: nat): seq<Stage<Entry>> {
    if stages == [] then []
    else [NumberStage(stages[0], ticket, number)]
         + Number(stages[1..], ticket + |StageTasks(stages[0])|, number + 1)
  }

  /** Every entry of the k-th remaining stage carries stage number `first + k`. */
  ghost predicate StagesFrom(stages: seq<Stage<Entry>>, first: nat) {
    forall k, e :: 0 <= k < |stages| && e in StageTasks(stages[k]) ==> e.stage == first + k
  }

  /** Numbering keeps the plan's order and content and hands out consecutive tickets. */
  lemma {:induction false} NumberSpec(stages: seq<Stage<TaskPlan>>, ticket: nat, number: nat)
    ensures |Number(stages, ticket, number)| == |stages|
    ensures |Flat(Number(stages, ticket, number))| == |Flat(stages)|
    ensures forall i :: 0 <= i < |Flat(stages)| ==>
              Flat(Number(stages, ticket, number))[i].ticket == ticket + i
              && Flat(Number(stages, ticket, number))[i].plan == Flat(stages)[i]
    ensures StagesFrom(Number(stages, ticket, number), number)
  {
    if stages != [] {
      var head := StageTasks(stages[0]);
      NumberSpec(stages[1..], ticket + |head|, number + 1);
      var whole := Number(stages, ticket, number);
      var rest := Number(stages[1..], ticket + |head|, number + 1);
      assert whole[1..] == rest;
      forall k, e: Entry | 0 <= k < |whole| && e in StageTasks(whole[k]) ensures e.stage == number + k {
        if k > 0 { assert whole[k] == rest[k - 1]; }
      }
    }
  }
}
