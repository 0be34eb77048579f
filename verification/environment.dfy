/** The environment (environment.py): the agent, the employees, the turn
    counter and the log, with the lookups the scenarios use and the turn
    scheduler `run_task`. */
module Environments {
  import opened Wrappers
  import opened Text
  import opened Actions
  import opened Tasks
  import opened Employees
  import opened Agents
  import opened Scheduler

  /** Each employee's action history, in list order. */
  function HistoriesOf(es: seq<Employee>): (r: seq<seq<Action>>)
    reads es
    ensures |r| == |es|
  {
    if es == [] then [] else HistoriesOf(es[..|es| - 1]) + [es[|es| - 1].actions]
  }

  /** The `i`-th history is the `i`-th employee's. */
  lemma {:induction false} HistoriesOfAt(es: seq<Employee>)
    ensures forall i :: 0 <= i < |es| ==> HistoriesOf(es)[i] == es[i].actions
  {
    if es != [] {
      HistoriesOfAt(es[..|es| - 1]);
    }
  }

  function ActorOf(e: Employee): Actor
  {
    Actor(e.id, e.name)
  }

  function Actors(es: seq<Employee>): (r: seq<Actor>)
    ensures |r| == |es|
  {
    seq(|es|, i requires 0 <= i < |es| => ActorOf(es[i]))
  }

  /** One of the employee's tags equals one of `tags`, ignoring case. */
  predicate HasTag(e: Employee, tags: seq<string>)
  {
    exists k :: 0 <= k < |e.tags| && Lower(e.tags[k]) in LowerAll(tags)
  }

  /** The employees having one of `tags`, in list order. */
  function Tagged(es: seq<Employee>, tags: seq<string>): seq<Employee>
  {
    if es == [] then []
    else Tagged(es[..|es| - 1], tags) + (if HasTag(es[|es| - 1], tags) then [es[|es| - 1]] else [])
  }

  /** `get_employees_by_tag` keeps list order: the result for a list is the
      results for its parts one after the other. */
  lemma {:induction false} TaggedAppend(a: seq<Employee>, b: seq<Employee>, tags: seq<string>)
    ensures Tagged(a + b, tags) == Tagged(a, tags) + Tagged(b, tags)
    decreases |b|
  {
    if b != [] {
      TaggedAppend(a, b[..|b| - 1], tags);
      DropLastAppend(a, b);
    } else {
      assert a + b == a;
    }
  }

  /** A single employee is returned exactly when it has a requested tag. */
  lemma TaggedSingle(e: Employee, tags: seq<string>)
    ensures Tagged([e], tags) == if HasTag(e, tags) then [e] else []
  {
    assert [e][..0] == [];
  }

  /** `get_employees_by_tag` returns every tagged employee as often as it is
      listed, and no other. */
  lemma {:induction false} TaggedMembers(es: seq<Employee>, tags: seq<string>)
    ensures forall e :: e in Tagged(es, tags) ==> e in es && HasTag(e, tags)
    ensures forall e :: HasTag(e, tags) ==> multiset(Tagged(es, tags))[e] == multiset(es)[e]
    ensures forall e :: !HasTag(e, tags) ==> multiset(Tagged(es, tags))[e] == 0
  {
    if es != [] {
      var init := es[..|es| - 1];
      TaggedMembers(init, tags);
      assert es == init + [es[|es| - 1]];
    }
  }

  /** Among the listed employees, exactly those having a requested tag are
      returned; a list without repeats gives a result without repeats. */
  lemma TaggedIff(es: seq<Employee>, tags: seq<string>)
    ensures forall e :: e in es ==> (e in Tagged(es, tags) <==> HasTag(e, tags))
    ensures forall e :: e in Tagged(es, tags) ==> e in es
    ensures (forall i, j :: 0 <= i < j < |es| ==> es[i] != es[j]) ==>
              forall i, j :: 0 <= i < j < |Tagged(es, tags)| ==> Tagged(es, tags)[i] != Tagged(es, tags)[j]
  {
    TaggedMembers(es, tags);
    forall e | e in es && HasTag(e, tags)
      ensures e in Tagged(es, tags)
    {
      assert multiset(Tagged(es, tags))[e] == multiset(es)[e] > 0;
    }
    if forall i, j :: 0 <= i < j < |es| ==> es[i] != es[j] {
      TaggedDistinct(es, tags);
    }
  }

  lemma {:induction false} TaggedDistinct(es: seq<Employee>, tags: seq<string>)
    requires forall i, j :: 0 <= i < j < |es| ==> es[i] != es[j]
    ensures forall i, j :: 0 <= i < j < |Tagged(es, tags)| ==> Tagged(es, tags)[i] != Tagged(es, tags)[j]
  {
    if es != [] {
      var init := es[..|es| - 1];
      TaggedDistinct(init, tags);
      TaggedMembers(init, tags);
      assert es[|es| - 1] !in init;
    }
  }

  /** Tags are compared in lower case, so requesting them in any case finds
      the same employees. */
  lemma TaggedIgnoresCase(es: seq<Employee>, tags: seq<string>)
    ensures Tagged(es, LowerAll(tags)) == Tagged(es, tags)
  {
    forall t | t in tags
      ensures Lower(Lower(t)) == Lower(t)
    {
      LowerIdempotent(t);
    }
    assert LowerAll(LowerAll(tags)) == LowerAll(tags);
  }

  predicate NameIs(name: string, e: Employee)
  {
    e.name == name
  }

  /** The test `get_employee_by_name` applies to each employee. */
  function NamedBy(name: string): Employee -> bool
  {
    (e: Employee) => NameIs(name, e)
  }

  /** The `KeyError` message of a failed lookup by name. */
  function NameNotFound(name: string): string
  {
    "Couldn't find " + name + " when calling Environment.get_employee_by_name()"
  }

  predicate EmailIs(email: string, e: Employee)
  {
    e.email == email
  }

  class Environment {
    const agent: Agent
    const employees: seq<Employee>
    var currentTurn: int
    var currentStates: seq<string>
    var logs: seq<Log>

    constructor (agent: Agent, employees: seq<Employee> := [])
      ensures this.agent == agent && this.employees == employees
      ensures currentTurn == 0 && currentStates == ["<default>"] && logs == []
    {
      this.agent := agent;
      this.employees := employees;
      currentTurn := 0;
      currentStates := ["<default>"];
      logs := [];
    }

    /** The employees are distinct objects, none of them the agent. */
    predicate Distinct()
    {
      && agent.employee !in employees
      && forall i, j :: 0 <= i < j < |employees| ==> employees[i] != employees[j]
    }

    function AgentActor(): Actor
    {
      ActorOf(agent.employee)
    }

    function CastOf(): Cast
    {
      Cast(AgentActor(), Actors(employees))
    }

    /** The part of the state the scheduler changes, as a value. */
    function WorldNow(): (w: World)
      reads this, agent.employee, employees
      ensures |w.histories| == |employees|
    {
      World(currentTurn, agent.employee.actions, HistoriesOf(employees), logs)
    }

    /** `add_log`: one entry stamped with the current turn is appended. */
    method AddLog(logType: string, emittedBy: string, content: LogContent)
      modifies this`logs
      ensures logs == old(logs) + [Log(logType, currentTurn, emittedBy, content)]
    {
      logs := logs + [Log(logType, currentTurn, emittedBy, content)];
    }

    /** `feed_fact`. */
    method FeedFact(employee: Employee, fact: string)
      modifies employee`knownFacts
      ensures employee.knownFacts == old(employee.knownFacts) + [fact]
    {
      employee.knownFacts := employee.knownFacts + [fact];
    }

    /** `get_employees_by_tag`. */
    method GetEmployeesByTag(tags: seq<string>) returns (r: seq<Employee>)
      ensures r == Tagged(employees, tags)
    {
      r := [];
      for i := 0 to |employees|
        invariant r == Tagged(employees[..i], tags)
      {
        var e := employees[i];
        var matched := false;
        var j := 0;
        while j < |e.tags| && !matched
          invariant 0 <= j <= |e.tags|
          invariant matched <==> exists k :: 0 <= k < j && Lower(e.tags[k]) in LowerAll(tags)
          invariant r == Tagged(employees[..i], tags) + (if matched then [e] else [])
        {
          if Lower(e.tags[j]) in LowerAll(tags) {
            r := r + [e];
            matched := true;
          }
          j := j + 1;
        }
        assert matched <==> HasTag(e, tags);
        assert employees[..i + 1][..i] == employees[..i];
      }
      assert employees[..|employees|] == employees;
    }

    /** `get_employee_by_name`: the first employee with that name, or the
        `KeyError` the source raises. */
    method GetEmployeeByName(name: string) returns (r: Result<Employee, string>)
      ensures match FirstIndex(employees, NamedBy(name))
              case Some(i) => r == Success(employees[i])
              case None => r == Failure(NameNotFound(name))
    {
      for i := 0 to |employees|
        invariant forall k :: 0 <= k < i ==> employees[k].name != name
      {
        if employees[i].name == name {
          return Success(employees[i]);
        }
      }
      return Failure(NameNotFound(name));
    }

    /** `get_employee_by_email`: the agent for the agent's address, else the
        first employee with that address, else the `KeyError`. */
    method GetEmployeeByEmail(email: string) returns (r: Result<Employee, string>)
      ensures email == agent.employee.email ==> r == Success(agent.employee)
      ensures email != agent.employee.email ==>
                match FirstIndex(employees, e => EmailIs(email, e))
                case Some(i) => r == Success(employees[i])
                case None => r == Failure("Couldn't find " + email + " when calling Environment.get_employee_by_email()")
    {
      if email == agent.employee.email {
        return Success(agent.employee);
      }
      for i := 0 to |employees|
        invariant forall k :: 0 <= k < i ==> employees[k].email != email
      {
        if employees[i].email == email {
          return Success(employees[i]);
        }
      }
      return Failure("Couldn't find " + email + " when calling Environment.get_employee_by_email()");
    }

    /** The agent's phase of a turn: it executes its choices one by one until
        a `Wait` or a `SetTaskAsCompleted`; the result says whether the task
        is still ongoing. */
    method RunAgentPhase(choices: seq<Command>, logActions: bool) returns (ongoing: bool)
      requires HasPhaseEnd(choices)
      modifies this`logs, agent.employee`actions
      ensures var cmds := AgentPhase(choices);
              && agent.employee.actions == old(agent.employee.actions) + Stamp(AgentActor(), cmds)
              && logs == old(logs) + ActionLogs(AgentActor(), cmds, currentTurn, logActions)
              && (ongoing <==> !cmds[|cmds| - 1].SetTaskAsCompleted?)
    {
      var me := AgentActor();
      var last: Option<Command> := None;
      var j := 0;
      ongoing := true;
      while last != Some(Wait) && ongoing
        invariant 0 <= j <= PhaseEnd(choices) + 1
        invariant last == if j == 0 then None else Some(choices[j - 1])
        invariant ongoing <==> !(j > 0 && choices[j - 1].SetTaskAsCompleted?)
        invariant agent.employee.actions == old(agent.employee.actions) + Stamp(me, choices[..j])
        invariant logs == old(logs) + ActionLogs(me, choices[..j], currentTurn, logActions)
        decreases PhaseEnd(choices) + 1 - j
      {
        var action := choices[j];
        agent.employee.ExecuteAction(action);
        if logActions {
          AddLog("action", agent.employee.name, ActionRecord(ActionName(action), action));
        }
        if action.SetTaskAsCompleted? {
          ongoing := false;
        }
        StampSnoc(me, choices, j);
        ActionLogsSnoc(me, choices, j, currentTurn, logActions);
        last := Some(action);
        j := j + 1;
      }
    }

    /** One employee executes its list for the turn, stopping after a
        `SetTaskAsCompleted`; the result says whether it executed one. */
    method RunEmployee(e: Employee, cmds: seq<Command>, logActions: bool) returns (completed: bool)
      modifies this`logs, e`actions
      ensures var done := UntilCompletion(cmds);
              && e.actions == old(e.actions) + Stamp(ActorOf(e), done)
              && logs == old(logs) + ActionLogs(ActorOf(e), done, currentTurn, logActions)
              && (completed <==> Completes(cmds))
    {
      var me := ActorOf(e);
      completed := false;
      var j := 0;
      while j < |cmds|
        invariant 0 <= j <= |cmds|
        invariant forall k :: 0 <= k < j ==> !cmds[k].SetTaskAsCompleted?
        invariant e.actions == old(e.actions) + Stamp(me, cmds[..j])
        invariant logs == old(logs) + ActionLogs(me, cmds[..j], currentTurn, logActions)
      {
        var action := cmds[j];
        e.ExecuteAction(action);
        if logActions {
          AddLog("action", e.name, ActionRecord(ActionName(action), action));
        }
        StampSnoc(me, cmds, j);
        ActionLogsSnoc(me, cmds, j, currentTurn, logActions);
        j := j + 1;
        if action.SetTaskAsCompleted? {
          completed := true;
          break;
        }
      }
      if completed {
        assert Completes(cmds);
      }
      UntilCompletionAt(cmds, j);
    }

    /** The employees' phase of a turn: every employee, in list order. */
    method RunStaffPhase(lists: seq<seq<Command>>, logActions: bool) returns (completed: bool)
      requires Distinct() && |lists| == |employees|
      modifies this`logs, employees`actions
      ensures WorldNow() == StaffPhase(old(WorldNow()), Actors(employees), lists, |employees|, logActions)
      ensures completed <==> StaffCompletes(lists)
    {
      ghost var w := WorldNow();
      ghost var staff := Actors(employees);
      HistoriesOfAt(employees);
      completed := false;
      for i := 0 to |employees|
        invariant currentTurn == w.turn && agent.employee.actions == w.agentHistory
        invariant var ws := StaffPhase(w, staff, lists, i, logActions);
                  && logs == ws.logs
                  && forall k :: 0 <= k < |employees| ==> employees[k].actions == ws.histories[k]
        invariant completed == CompletesAmong(lists, i)
      {
        var c := RunEmployee(employees[i], lists[i], logActions);
        if c {
          completed := true;
        }
        StaffPhaseStep(w, staff, lists, i, logActions);
      }
      HistoriesOfAt(employees);
      assert HistoriesOf(employees) == StaffPhase(w, staff, lists, |employees|, logActions).histories;
    }

    /** One turn of `run_task`, the `k`-th: the agent's phase, then (unless
        it completed the task) the employees' phase and the goal check,
        then the counter advances unless the turn ended the run. */
    method PlayOneTurn<C, B>(task: Task<C, B>, script: TurnScript, holds: (nat, C) -> bool, k: nat, logActions: bool)
      returns (ongoing: bool)
      requires Distinct()
      requires HasPhaseEnd(script.agentChoices) && |script.employeeActions| == |employees|
      requires forall j :: 0 <= j < |task.completionGoals| ==> task.completionGoals[j].conditions != []
      modifies this`currentTurn, this`logs, agent.employee`actions, employees`actions
      ensures var o := PlayTurn(old(WorldNow()), CastOf(), script, task.completionGoals, holds, k, logActions);
              WorldNow() == o.world && ongoing == !o.ended
    {
      ghost var w := WorldNow();
      ongoing := RunAgentPhase(script.agentChoices, logActions);
      if !ongoing {
        return;
      }
      var completed := RunStaffPhase(script.employeeActions, logActions);
      if completed {
        ongoing := false;
      }
      var met := CheckGoals(task.completionGoals, HoldsAt(holds, k));
      if met {
        ongoing := false;
      }
      if ongoing {
        currentTurn := currentTurn + 1;
      }
    }

    /** The turns of a run of at most `n` turns from the `k`-th on. */
    method PlayTurnsFrom<C, B>(task: Task<C, B>, scripts: seq<TurnScript>, holds: (nat, C) -> bool, k: nat, n: int,
                               logActions: bool)
      requires Distinct()
      requires ScriptsFit(CastOf(), scripts, n)
      requires forall j :: 0 <= j < |task.completionGoals| ==> task.completionGoals[j].conditions != []
      modifies this`currentTurn, this`logs, agent.employee`actions, employees`actions
      ensures WorldNow() == RunFrom(old(WorldNow()), CastOf(), scripts, task.completionGoals, holds, k, n, logActions).world
      decreases n - k
    {
      if k < n {
        var ongoing := PlayOneTurn(task, scripts[k], holds, k, logActions);
        if ongoing {
          PlayTurnsFrom(task, scripts, holds, k + 1, n, logActions);
        }
      }
    }

    /** `run_task`: shows the objective to the agent, then plays turns until
        the task is completed or `maxTurns` turns have been played, and
        finally resets the counter. What the agent chooses, what each
        employee does each turn and what each goal condition evaluates to
        come from `scripts` and `holds`; `logActions` is the "LOG_ACTIONS"
        setting. */
    method RunTask<C, B>(task: Task<C, B>, maxTurns: int := 100, scripts: seq<TurnScript>, holds: (nat, C) -> bool, logActions: bool)
      requires Distinct()
      requires ScriptsFit(CastOf(), scripts, maxTurns)
      requires forall j :: 0 <= j < |task.completionGoals| ==> task.completionGoals[j].conditions != []
      modifies this`currentTurn, this`logs, agent`header, agent.employee`actions, employees`actions
      ensures agent.header == "High-level objective: " + task.taskGoal
      ensures currentTurn == 0
      ensures var r := RunFrom(old(WorldNow()), CastOf(), scripts, task.completionGoals, holds, 0, maxTurns, logActions);
              && agent.employee.actions == r.world.agentHistory
              && HistoriesOf(employees) == r.world.histories
              && logs == r.world.logs
    {
      agent.header := "High-level objective: " + task.taskGoal;
      PlayTurnsFrom(task, scripts, holds, 0, maxTurns, logActions);
      currentTurn := 0;
    }
  }

  /** The goal check of a turn: does some goal that triggers completion
      score 1? Every goal's score is computed. */
  method CheckGoals<C>(goals: seq<Goal<C>>, holds: C -> bool) returns (met: bool)
    requires forall j :: 0 <= j < |goals| ==> goals[j].conditions != []
    ensures met <==> GoalsMet(goals, holds)
  {
    met := false;
    for j := 0 to |goals|
      invariant met == GoalsMetAmong(goals, holds, j)
    {
      var score;
      ghost var consulted;
      score, consulted := ComputeScore(goals[j], holds);
      if IsOne(score.value) && goals[j].triggersCompletion {
        met := true;
      }
    }
  }
}
