/** Goals and tasks (task.py). A goal's conditions are callbacks the
    scenario supplies; here a condition is any value of type `C` and its
    truth at the moment of evaluation is the function `holds`. */
module Tasks {
  import opened Wrappers

  /** A goal: its name, its conditions, and whether reaching a full score
      ends the run. */
  datatype Goal<C> = Goal(name: string, conditions: seq<C>, triggersCompletion: bool := false)

  /** An exact fraction `num / den`, standing for Python's float division. */
  datatype Ratio = Ratio(num: nat, den: nat)

  /** The error `points / len(conditions)` raises on an empty list. */
  datatype ScoreError = ZeroDivision

  predicate IsOne(r: Ratio)
  {
    r.den > 0 && r.num == r.den
  }

  /** Number of conditions that hold. */
  function Points<C>(conditions: seq<C>, holds: C -> bool): nat
  {
    if conditions == [] then 0
    else Points(conditions[..|conditions| - 1], holds) + (if holds(conditions[|conditions| - 1]) then 1 else 0)
  }

  /** `Goal.score`: the share of conditions that hold. */
  function Score<C>(g: Goal<C>, holds: C -> bool): (r: Result<Ratio, ScoreError>)
    ensures r.Failure? <==> g.conditions == []
    ensures r.Success? ==> r.value.den == |g.conditions| && r.value.num <= r.value.den
  {
    PointsBound(g.conditions, holds);
    if g.conditions == [] then Failure(ZeroDivision)
    else Success(Ratio(Points(g.conditions, holds), |g.conditions|))
  }

  /** At most every condition scores a point. */
  lemma {:induction false} PointsBound<C>(conditions: seq<C>, holds: C -> bool)
    ensures Points(conditions, holds) <= |conditions|
  {
    if conditions != [] {
      PointsBound(conditions[..|conditions| - 1], holds);
    }
  }

  /** Every condition holds exactly when each one scores its point. */
  lemma {:induction false} PointsFull<C>(conditions: seq<C>, holds: C -> bool)
    ensures Points(conditions, holds) == |conditions| <==> forall i :: 0 <= i < |conditions| ==> holds(conditions[i])
  {
    if conditions != [] {
      var init := conditions[..|conditions| - 1];
      PointsFull(init, holds);
      PointsBound(init, holds);
      if forall i :: 0 <= i < |conditions| ==> holds(conditions[i]) {
        assert forall i :: 0 <= i < |init| ==> holds(init[i]) by {
          forall i | 0 <= i < |init| ensures holds(init[i]) {
            assert init[i] == conditions[i];
          }
        }
      }
    }
  }

  /** A goal scores 1 exactly when all of its conditions hold. */
  lemma ScoreOneIffAll<C>(g: Goal<C>, holds: C -> bool)
    requires g.conditions != []
    ensures IsOne(Score(g, holds).value) <==> forall i :: 0 <= i < |g.conditions| ==> holds(g.conditions[i])
  {
    PointsFull(g.conditions, holds);
  }

  /** A goal none of whose conditions holds scores 0. */
  lemma {:induction false} PointsNone<C>(conditions: seq<C>, holds: C -> bool)
    requires forall i :: 0 <= i < |conditions| ==> !holds(conditions[i])
    ensures Points(conditions, holds) == 0
  {
    if conditions != [] {
      var init := conditions[..|conditions| - 1];
      assert forall i :: 0 <= i < |init| ==> init[i] == conditions[i];
      PointsNone(init, holds);
    }
  }

  /** `Goal.score`, by the counting loop of the source: every condition is
      evaluated once, in list order, and `consulted` records that order. */
  method ComputeScore<C>(g: Goal<C>, holds: C -> bool) returns (r: Result<Ratio, ScoreError>, ghost consulted: seq<C>)
    ensures r == Score(g, holds)
    ensures consulted == g.conditions
  {
    var points := 0;
    consulted := [];
    for i := 0 to |g.conditions|
      invariant consulted == g.conditions[..i]
      invariant points == Points(g.conditions[..i], holds)
    {
      if holds(g.conditions[i]) {
        points := points + 1;
      }
      assert g.conditions[..i + 1][..i] == g.conditions[..i];
      consulted := consulted + [g.conditions[i]];
    }
    assert g.conditions[..|g.conditions|] == g.conditions;
    if |g.conditions| == 0 {
      r := Failure(ZeroDivision);
    } else {
      r := Success(Ratio(points, |g.conditions|));
    }
  }

  /** A task: an id, the objective shown to the agent, the goals checked
      after every turn and the employees' behaviours (stored, never read). */
  datatype Task<C, B> = Task(taskId: string, taskGoal: string, completionGoals: seq<Goal<C>>, behaviours: seq<B>)
  {
    /** `str(task)`. */
    function ToString(): (s: string)
      ensures |s| == |taskId| + |taskGoal| + 7
      ensures "Task " + taskId + ": " <= s
      ensures s[|s| - |taskGoal|..] == taskGoal
    {
      "Task " + taskId + ": " + taskGoal
    }
  }

  /** In a description whose id holds no colon, the first colon is the one
      right after the id. */
  lemma ColonAfterId<C, B>(t: Task<C, B>)
    requires ':' !in t.taskId
    ensures var s := t.ToString();
            && s[5 + |t.taskId|] == ':'
            && forall k :: 0 <= k < 5 + |t.taskId| ==> s[k] != ':'
  {
    var s := t.ToString();
    forall k | 5 <= k < 5 + |t.taskId|
      ensures s[k] != ':'
    {
      assert s[k] == t.taskId[k - 5];
    }
  }

  /** The description names the task unambiguously when ids hold no colon. */
  lemma ToStringInjective<C, B>(a: Task<C, B>, b: Task<C, B>)
    requires ':' !in a.taskId && ':' !in b.taskId
    requires a.ToString() == b.ToString()
    ensures a.taskId == b.taskId && a.taskGoal == b.taskGoal
  {
    var s := a.ToString();
    ColonAfterId(a);
    ColonAfterId(b);
    assert |a.taskId| == |b.taskId|;
    assert a.taskId == s[5..5 + |a.taskId|];
    assert b.taskId == s[5..5 + |b.taskId|];
    assert a.taskGoal == s[7 + |a.taskId|..];
    assert b.taskGoal == s[7 + |b.taskId|..];
  }
}
