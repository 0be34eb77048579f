/** The turn scheduler of `Environment.run_task`, as functions over values:
    what the run does to the actors' histories, the log and the turn counter,
    given what the outside world supplies (the agent's successive choices,
    each employee's action list for the turn, and each goal condition's value
    at each goal check). */
module Scheduler {
  import opened Wrappers
  import opened Actions
  import opened Tasks

  /** The payload of a log entry: an executed action, or free-form entries. */
  datatype LogContent = ActionRecord(actionName: string, action: Command) | Entries(entries: map<string, string>)

  /** A log entry, stamped with the turn it was written in. */
  datatype Log = Log(logType: string, turn: int, emittedBy: string, content: LogContent)

  /** Who acts: the id stamped on its actions and the name on its logs. */
  datatype Actor = Actor(id: int, name: string)

  /** The agent and the employees, in list order. */
  datatype Cast = Cast(agent: Actor, staff: seq<Actor>)

  /** What the outside world supplies for one turn: the commands the agent
      chooses one after the other, and the list each employee executes. */
  datatype TurnScript = TurnScript(agentChoices: seq<Command>, employeeActions: seq<seq<Command>>)

  /** The state the scheduler changes: the turn counter, the agent's history,
      each employee's history (in list order) and the log. */
  datatype World = World(turn: int, agentHistory: seq<Action>, histories: seq<seq<Action>>, logs: seq<Log>)

  datatype TurnOutcome = TurnOutcome(world: World, ended: bool)

  /** The world after the run, how many turns were played, and whether the
      run stopped because the task was completed. */
  datatype RunResult = RunResult(world: World, played: nat, completed: bool)

  /** The agent eventually chooses a command that ends its phase. */
  predicate HasPhaseEnd(cmds: seq<Command>)
  {
    exists i :: 0 <= i < |cmds| && EndsAgentPhase(cmds[i])
  }

  /** Position of the first command that ends the agent's phase. */
  function PhaseEnd(cmds: seq<Command>): (i: nat)
    requires HasPhaseEnd(cmds)
    ensures i < |cmds| && EndsAgentPhase(cmds[i])
    ensures forall k :: 0 <= k < i ==> !EndsAgentPhase(cmds[k])
  {
    if EndsAgentPhase(cmds[0]) then 0
    else
      assert HasPhaseEnd(cmds[1..]) by {
        var i :| 0 <= i < |cmds| && EndsAgentPhase(cmds[i]);
        assert cmds[1..][i - 1] == cmds[i];
      }
      1 + PhaseEnd(cmds[1..])
  }

  /** The commands the agent executes in one turn: its choices up to and
      including the first `Wait` or `SetTaskAsCompleted`. */
  function AgentPhase(cmds: seq<Command>): (r: seq<Command>)
    requires HasPhaseEnd(cmds)
    ensures r <= cmds && |r| > 0
    ensures EndsAgentPhase(r[|r| - 1])
    ensures forall i :: 0 <= i < |r| - 1 ==> !EndsAgentPhase(r[i])
  {
    cmds[..PhaseEnd(cmds) + 1]
  }

  /** The list holds a `SetTaskAsCompleted`. */
  predicate Completes(cmds: seq<Command>)
  {
    exists i :: 0 <= i < |cmds| && cmds[i].SetTaskAsCompleted?
  }

  /** The commands an employee executes from its list: all of them, or those
      up to and including the first `SetTaskAsCompleted`. */
  function UntilCompletion(cmds: seq<Command>): (r: seq<Command>)
    ensures r <= cmds
    ensures forall i :: 0 <= i < |r| - 1 ==> !r[i].SetTaskAsCompleted?
    ensures Completes(cmds) <==> |r| > 0 && r[|r| - 1].SetTaskAsCompleted?
    ensures !Completes(cmds) ==> r == cmds
  {
    if cmds == [] then []
    else if cmds[0].SetTaskAsCompleted? then [cmds[0]]
    else
      var rest := UntilCompletion(cmds[1..]);
      assert Completes(cmds) <==> Completes(cmds[1..]) by {
        if Completes(cmds) {
          var i :| 0 <= i < |cmds| && cmds[i].SetTaskAsCompleted?;
          assert cmds[1..][i - 1] == cmds[i];
        }
        if Completes(cmds[1..]) {
          var i :| 0 <= i < |cmds[1..]| && cmds[1..][i].SetTaskAsCompleted?;
          assert cmds[i + 1] == cmds[1..][i];
        }
      }
      assert cmds == [cmds[0]] + cmds[1..];
      [cmds[0]] + rest
  }

  /** Commands as executed by `actor`. */
  function Stamp(actor: Actor, cmds: seq<Command>): (r: seq<Action>)
    ensures |r| == |cmds|
  {
    seq(|cmds|, i requires 0 <= i < |cmds| => Action(cmds[i], Some(actor.id)))
  }

  /** The "action" logs of commands executed by `actor`, when logging is on. */
  function ActionLogs(actor: Actor, cmds: seq<Command>, turn: int, logActions: bool): (r: seq<Log>)
    ensures |r| == if logActions then |cmds| else 0
  {
    if logActions then
      seq(|cmds|, i requires 0 <= i < |cmds| => Log("action", turn, actor.name, ActionRecord(ActionName(cmds[i]), cmds[i])))
    else []
  }

  function AgentActs(w: World, agent: Actor, cmds: seq<Command>, logActions: bool): World
  {
    w.(agentHistory := w.agentHistory + Stamp(agent, cmds),
       logs := w.logs + ActionLogs(agent, cmds, w.turn, logActions))
  }

  function EmployeeActs(w: World, i: nat, e: Actor, cmds: seq<Command>, logActions: bool): World
    requires i < |w.histories|
  {
    w.(histories := w.histories[i := w.histories[i] + Stamp(e, cmds)],
       logs := w.logs + ActionLogs(e, cmds, w.turn, logActions))
  }

  /** The first `n` employees act, in list order, each on its own list. */
  function StaffPhase(w: World, staff: seq<Actor>, lists: seq<seq<Command>>, n: nat, logActions: bool): (r: World)
    requires n <= |staff| == |lists| == |w.histories|
    ensures |r.histories| == |w.histories| && r.turn == w.turn && r.agentHistory == w.agentHistory
  {
    if n == 0 then w
    else EmployeeActs(StaffPhase(w, staff, lists, n - 1, logActions), n - 1, staff[n - 1], UntilCompletion(lists[n - 1]), logActions)
  }

  /** One of the first `n` employees executes a `SetTaskAsCompleted`. */
  predicate CompletesAmong(lists: seq<seq<Command>>, n: nat)
    requires n <= |lists|
  {
    n > 0 && (CompletesAmong(lists, n - 1) || Completes(lists[n - 1]))
  }

  /** Some employee executes a `SetTaskAsCompleted` this turn. */
  predicate StaffCompletes(lists: seq<seq<Command>>)
  {
    CompletesAmong(lists, |lists|)
  }

  lemma {:induction false} CompletesAmongIff(lists: seq<seq<Command>>, n: nat)
    requires n <= |lists|
    ensures CompletesAmong(lists, n) <==> exists i :: 0 <= i < n && Completes(lists[i])
  {
    if n > 0 {
      CompletesAmongIff(lists, n - 1);
    }
  }

  /** The goal scores 1 (every condition holds). */
  predicate Reached<C>(g: Goal<C>, holds: C -> bool)
  {
    g.conditions != [] && IsOne(Score(g, holds).value)
  }

  /** One of the first `n` goals triggers completion and scores 1. */
  predicate GoalsMetAmong<C>(goals: seq<Goal<C>>, holds: C -> bool, n: nat)
    requires n <= |goals|
  {
    n > 0 && (GoalsMetAmong(goals, holds, n - 1) || (goals[n - 1].triggersCompletion && Reached(goals[n - 1], holds)))
  }

  /** Some goal that triggers completion scores 1. */
  predicate GoalsMet<C>(goals: seq<Goal<C>>, holds: C -> bool)
  {
    GoalsMetAmong(goals, holds, |goals|)
  }

  lemma {:induction false} GoalsMetAmongIff<C>(goals: seq<Goal<C>>, holds: C -> bool, n: nat)
    requires n <= |goals|
    ensures GoalsMetAmong(goals, holds, n) <==>
              exists j :: 0 <= j < n && goals[j].triggersCompletion && Reached(goals[j], holds)
  {
    if n > 0 {
      GoalsMetAmongIff(goals, holds, n - 1);
    }
  }

  /** The truth of each condition at the `k`-th goal check. */
  function HoldsAt<C>(holds: (nat, C) -> bool, k: nat): C -> bool
  {
    c => holds(k, c)
  }

  /** The script supplies a terminating agent phase and one list per
      employee for each of the `n` turns. */
  predicate ScriptsFit(cast: Cast, scripts: seq<TurnScript>, n: int)
  {
    && |scripts| >= n
    && forall k :: 0 <= k < n ==>
         HasPhaseEnd(scripts[k].agentChoices) && |scripts[k].employeeActions| == |cast.staff|
  }

  /** One turn (the `k`-th of the run): the agent's phase; unless the agent
      completed the task, every employee's phase and the goal check; the
      counter advances only when the turn did not end the run. */
  function PlayTurn<C>(w: World, cast: Cast, script: TurnScript, goals: seq<Goal<C>>,
                       holds: (nat, C) -> bool, k: nat, logActions: bool): (o: TurnOutcome)
    requires HasPhaseEnd(script.agentChoices)
    requires |script.employeeActions| == |cast.staff| == |w.histories|
    ensures |o.world.histories| == |w.histories|
  {
    var agentCmds := AgentPhase(script.agentChoices);
    var w1 := AgentActs(w, cast.agent, agentCmds, logActions);
    if agentCmds[|agentCmds| - 1].SetTaskAsCompleted? then TurnOutcome(w1, true)
    else
      var w2 := StaffPhase(w1, cast.staff, script.employeeActions, |cast.staff|, logActions);
      if StaffCompletes(script.employeeActions) || GoalsMet(goals, HoldsAt(holds, k)) then TurnOutcome(w2, true)
      else TurnOutcome(w2.(turn := w2.turn + 1), false)
  }

  /** The run from its `k`-th turn on, for at most `n` turns in all. */
  function RunFrom<C>(w: World, cast: Cast, scripts: seq<TurnScript>, goals: seq<Goal<C>>,
                      holds: (nat, C) -> bool, k: nat, n: int, logActions: bool): RunResult
    requires ScriptsFit(cast, scripts, n) && |w.histories| == |cast.staff|
    decreases n - k
  {
    if k >= n then RunResult(w, k, false)
    else
      var o := PlayTurn(w, cast, scripts[k], goals, holds, k, logActions);
      if o.ended then RunResult(o.world, k + 1, true)
      else RunFrom(o.world, cast, scripts, goals, holds, k + 1, n, logActions)
  }

  function Max(a: int, b: int): int
  {
    if a < b then b else a
  }

  /** At most `n` turns are played, all of them unless the task is completed;
      the counter rises by one per turn that did not end the run. */
  lemma {:induction false} RunTurns<C>(w: World, cast: Cast, scripts: seq<TurnScript>, goals: seq<Goal<C>>,
                                      holds: (nat, C) -> bool, k: nat, n: int, logActions: bool)
    requires ScriptsFit(cast, scripts, n) && |w.histories| == |cast.staff|
    ensures var r := RunFrom(w, cast, scripts, goals, holds, k, n, logActions);
            && k <= r.played <= Max(k, n)
            && (r.completed ==> k < r.played)
            && (!r.completed ==> r.played == Max(k, n))
            && r.world.turn == w.turn + (r.played - k) - (if r.completed then 1 else 0)
    decreases n - k
  {
    if k < n {
      var o := PlayTurn(w, cast, scripts[k], goals, holds, k, logActions);
      if !o.ended {
        RunTurns(o.world, cast, scripts, goals, holds, k + 1, n, logActions);
      }
    }
  }

  /** Every played turn adds at least one action, the one ending the agent's
      phase, to the agent's history. */
  lemma {:induction false} AgentActsEveryTurn<C>(w: World, cast: Cast, scripts: seq<TurnScript>, goals: seq<Goal<C>>,
                                                holds: (nat, C) -> bool, k: nat, n: int, logActions: bool)
    requires ScriptsFit(cast, scripts, n) && |w.histories| == |cast.staff|
    ensures var r := RunFrom(w, cast, scripts, goals, holds, k, n, logActions);
            && w.agentHistory <= r.world.agentHistory
            && |r.world.agentHistory| >= |w.agentHistory| + r.played - k
    decreases n - k
  {
    if k < n {
      var o := PlayTurn(w, cast, scripts[k], goals, holds, k, logActions);
      if !o.ended {
        AgentActsEveryTurn(o.world, cast, scripts, goals, holds, k + 1, n, logActions);
      }
    }
  }

  /** A turn in which the agent completes the task ends the run: no
      employee acts and the counter stays. */
  lemma AgentCompletionEndsTurn<C>(w: World, cast: Cast, script: TurnScript, goals: seq<Goal<C>>,
                                   holds: (nat, C) -> bool, k: nat, logActions: bool)
    requires HasPhaseEnd(script.agentChoices)
    requires |script.employeeActions| == |cast.staff| == |w.histories|
    requires script.agentChoices[PhaseEnd(script.agentChoices)].SetTaskAsCompleted?
    ensures var o := PlayTurn(w, cast, script, goals, holds, k, logActions);
            && o.ended
            && o.world.histories == w.histories
            && o.world.turn == w.turn
            && o.world.agentHistory == w.agentHistory + Stamp(cast.agent, AgentPhase(script.agentChoices))
  {
  }

  /** The turn ends the run exactly when the agent completes the task, an
      employee does, or a goal that triggers completion scores 1. */
  lemma TurnEndsIff<C>(w: World, cast: Cast, script: TurnScript, goals: seq<Goal<C>>,
                       holds: (nat, C) -> bool, k: nat, logActions: bool)
    requires HasPhaseEnd(script.agentChoices)
    requires |script.employeeActions| == |cast.staff| == |w.histories|
    ensures PlayTurn(w, cast, script, goals, holds, k, logActions).ended <==>
              || script.agentChoices[PhaseEnd(script.agentChoices)].SetTaskAsCompleted?
              || StaffCompletes(script.employeeActions)
              || exists j :: 0 <= j < |goals| && goals[j].triggersCompletion && goals[j].conditions != [] &&
                   forall i :: 0 <= i < |goals[j].conditions| ==> holds(k, goals[j].conditions[i])
  {
    var h := HoldsAt(holds, k);
    GoalsMetAmongIff(goals, h, |goals|);
    forall j | 0 <= j < |goals| && goals[j].conditions != []
      ensures Reached(goals[j], h) <==> forall i :: 0 <= i < |goals[j].conditions| ==> holds(k, goals[j].conditions[i])
    {
      ScoreOneIffAll(goals[j], h);
    }
  }

  /** In the employee phase every employee acts, in list order, on its own
      history: an employee's `SetTaskAsCompleted` cuts only its own list. */
  lemma {:induction false} StaffPhaseHistories(w: World, staff: seq<Actor>, lists: seq<seq<Command>>, n: nat, logActions: bool)
    requires n <= |staff| == |lists| == |w.histories|
    ensures var r := StaffPhase(w, staff, lists, n, logActions);
            && (forall i :: 0 <= i < n ==> r.histories[i] == w.histories[i] + Stamp(staff[i], UntilCompletion(lists[i])))
            && (forall i :: n <= i < |w.histories| ==> r.histories[i] == w.histories[i])
            && w.logs <= r.logs
  {
    if n > 0 {
      StaffPhaseHistories(w, staff, lists, n - 1, logActions);
    }
  }

  /** Total number of actions in a list of histories. */
  function TotalActions(hs: seq<seq<Action>>): nat
  {
    if hs == [] then 0 else TotalActions(hs[..|hs| - 1]) + |hs[|hs| - 1]|
  }

  lemma {:induction false} TotalActionsUpdate(hs: seq<seq<Action>>, i: nat, extra: seq<Action>)
    requires i < |hs|
    ensures TotalActions(hs[i := hs[i] + extra]) == TotalActions(hs) + |extra|
  {
    var n := |hs|;
    var hs' := hs[i := hs[i] + extra];
    if i < n - 1 {
      assert hs'[..n - 1] == hs[..n - 1][i := hs[i] + extra];
      TotalActionsUpdate(hs[..n - 1], i, extra);
    } else {
      assert hs'[..n - 1] == hs[..n - 1];
    }
  }

  /** Number of commands the first `n` employees execute. */
  function Executed(lists: seq<seq<Command>>, n: nat): nat
    requires n <= |lists|
  {
    if n == 0 then 0 else Executed(lists, n - 1) + |UntilCompletion(lists[n - 1])|
  }

  /** The employee phase adds one action per executed command, and, with
      logging on, one log per executed command. */
  lemma {:induction false} StaffPhaseLogs(w: World, staff: seq<Actor>, lists: seq<seq<Command>>, n: nat, logActions: bool)
    requires n <= |staff| == |lists| == |w.histories|
    ensures var r := StaffPhase(w, staff, lists, n, logActions);
            && TotalActions(r.histories) == TotalActions(w.histories) + Executed(lists, n)
            && |r.logs| == |w.logs| + (if logActions then Executed(lists, n) else 0)
  {
    if n > 0 {
      StaffPhaseLogs(w, staff, lists, n - 1, logActions);
      StaffPhaseCountsStep(w, staff, lists, n, logActions);
    }
  }

  lemma StaffPhaseCountsStep(w: World, staff: seq<Actor>, lists: seq<seq<Command>>, n: nat, logActions: bool)
    requires 0 < n <= |staff| == |lists| == |w.histories|
    ensures var a := StaffPhase(w, staff, lists, n - 1, logActions);
            var b := StaffPhase(w, staff, lists, n, logActions);
            && TotalActions(b.histories) == TotalActions(a.histories) + |UntilCompletion(lists[n - 1])|
            && |b.logs| == |a.logs| + (if logActions then |UntilCompletion(lists[n - 1])| else 0)
  {
    EmployeeActsCounts(StaffPhase(w, staff, lists, n - 1, logActions), n - 1, staff[n - 1], UntilCompletion(lists[n - 1]), logActions);
  }

  /** With logging on, every executed action yields exactly one log entry;
      with logging off, the log does not change. */
  lemma {:induction false} RunLogs<C>(w: World, cast: Cast, scripts: seq<TurnScript>, goals: seq<Goal<C>>,
                                     holds: (nat, C) -> bool, k: nat, n: int, logActions: bool)
    requires ScriptsFit(cast, scripts, n) && |w.histories| == |cast.staff|
    ensures var r := RunFrom(w, cast, scripts, goals, holds, k, n, logActions);
            && |r.world.agentHistory| >= |w.agentHistory|
            && TotalActions(r.world.histories) >= TotalActions(w.histories)
            && (logActions ==> |r.world.logs| == |w.logs| + (|r.world.agentHistory| - |w.agentHistory|)
                                                 + (TotalActions(r.world.histories) - TotalActions(w.histories)))
            && (!logActions ==> r.world.logs == w.logs)
    decreases n - k
  {
    if k < n {
      var script := scripts[k];
      var o := PlayTurn(w, cast, script, goals, holds, k, logActions);
      var w1 := AgentActs(w, cast.agent, AgentPhase(script.agentChoices), logActions);
      StaffPhaseLogs(w1, cast.staff, script.employeeActions, |cast.staff|, logActions);
      StaffPhaseNoLogs(w1, cast.staff, script.employeeActions, |cast.staff|, logActions);
      if !o.ended {
        RunLogs(o.world, cast, scripts, goals, holds, k + 1, n, logActions);
      }
    }
  }

  /** One employee's phase adds one action per command, and one log per
      command when logging is on. */
  lemma EmployeeActsCounts(w: World, i: nat, e: Actor, cmds: seq<Command>, logActions: bool)
    requires i < |w.histories|
    ensures var r := EmployeeActs(w, i, e, cmds, logActions);
            && TotalActions(r.histories) == TotalActions(w.histories) + |cmds|
            && |r.logs| == |w.logs| + (if logActions then |cmds| else 0)
  {
    TotalActionsUpdate(w.histories, i, Stamp(e, cmds));
  }

  lemma {:induction false} StaffPhaseNoLogs(w: World, staff: seq<Actor>, lists: seq<seq<Command>>, n: nat, logActions: bool)
    requires n <= |staff| == |lists| == |w.histories|
    ensures !logActions ==> StaffPhase(w, staff, lists, n, logActions).logs == w.logs
  {
    if n > 0 {
      StaffPhaseNoLogs(w, staff, lists, n - 1, logActions);
    }
  }

  /** The base agent only ever waits: its phase is that single `Wait`. */
  lemma WaitingAgentPhase(cmds: seq<Command>)
    requires cmds != [] && cmds[0] == Wait
    ensures HasPhaseEnd(cmds) && AgentPhase(cmds) == [Wait]
  {
    assert EndsAgentPhase(cmds[0]);
  }

  /** With an agent that only waits, no employee completing the task and no
      completing goal reached, all `n` turns are played and each adds exactly
      one `Wait` to the agent's history. */
  lemma {:induction false} WaitingRun<C>(w: World, cast: Cast, scripts: seq<TurnScript>, goals: seq<Goal<C>>,
                                        holds: (nat, C) -> bool, k: nat, n: int, logActions: bool)
    requires |scripts| >= n && |w.histories| == |cast.staff|
    requires forall t :: k <= t < n ==>
               && scripts[t].agentChoices != [] && scripts[t].agentChoices[0] == Wait
               && |scripts[t].employeeActions| == |cast.staff|
               && !StaffCompletes(scripts[t].employeeActions)
               && !GoalsMet(goals, HoldsAt(holds, t))
    requires forall t :: 0 <= t < k && t < n ==> HasPhaseEnd(scripts[t].agentChoices) && |scripts[t].employeeActions| == |cast.staff|
    ensures ScriptsFit(cast, scripts, n)
    ensures var r := RunFrom(w, cast, scripts, goals, holds, k, n, logActions);
            && !r.completed && r.played == Max(k, n)
            && r.world.agentHistory == w.agentHistory + seq(r.played - k, _ => Action(Wait, Some(cast.agent.id)))
    decreases n - k
  {
    forall t | k <= t < n
      ensures HasPhaseEnd(scripts[t].agentChoices)
    {
      WaitingAgentPhase(scripts[t].agentChoices);
    }
    if k < n {
      var o := PlayTurn(w, cast, scripts[k], goals, holds, k, logActions);
      WaitingAgentPhase(scripts[k].agentChoices);
      assert o.world.agentHistory == w.agentHistory + [Action(Wait, Some(cast.agent.id))];
      WaitingRun(o.world, cast, scripts, goals, holds, k + 1, n, logActions);
      var r := RunFrom(w, cast, scripts, goals, holds, k, n, logActions);
      assert [Action(Wait, Some(cast.agent.id))] + seq(r.played - (k + 1), _ => Action(Wait, Some(cast.agent.id)))
          == seq(r.played - k, _ => Action(Wait, Some(cast.agent.id)));
    }
  }

  lemma StampSnoc(actor: Actor, cmds: seq<Command>, j: nat)
    requires j < |cmds|
    ensures Stamp(actor, cmds[..j + 1]) == Stamp(actor, cmds[..j]) + [Action(cmds[j], Some(actor.id))]
  {
  }

  lemma ActionLogsSnoc(actor: Actor, cmds: seq<Command>, j: nat, turn: int, logActions: bool)
    requires j < |cmds|
    ensures ActionLogs(actor, cmds[..j + 1], turn, logActions) ==
              ActionLogs(actor, cmds[..j], turn, logActions) +
              (if logActions then [Log("action", turn, actor.name, ActionRecord(ActionName(cmds[j]), cmds[j]))] else [])
  {
  }

  /** A loop that stops right after the first `SetTaskAsCompleted` (or at the
      end of the list) has executed exactly `UntilCompletion`. */
  lemma UntilCompletionAt(cmds: seq<Command>, j: nat)
    requires j <= |cmds|
    requires forall k :: 0 <= k < j - 1 ==> !cmds[k].SetTaskAsCompleted?
    requires (j > 0 && cmds[j - 1].SetTaskAsCompleted?) || (j == |cmds| && !Completes(cmds))
    ensures UntilCompletion(cmds) == cmds[..j]
  {
    if j > 0 && cmds[j - 1].SetTaskAsCompleted? {
      assert Completes(cmds);
    }
  }

  lemma StaffPhaseStep(w: World, staff: seq<Actor>, lists: seq<seq<Command>>, i: nat, logActions: bool)
    requires i < |staff| == |lists| == |w.histories|
    ensures StaffPhase(w, staff, lists, i + 1, logActions)
         == EmployeeActs(StaffPhase(w, staff, lists, i, logActions), i, staff[i], UntilCompletion(lists[i]), logActions)
  {
  }
}
