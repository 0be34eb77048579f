/** The mail conditions scenarios build their triggers from
    (tasks/generic_conditions.py). Whether a mail satisfies a condition
    written in natural language is decided by `judge`, which stands for the
    language-model call and is not modelled. */
module GenericConditions {
  import opened Wrappers
  import opened Mail
  import opened Employees
  import opened Environments

  /** A receiver given as an address, or as an employee. */
  datatype Recipient = Address(address: string) | Person(employee: Employee)

  /** The address a receiver stands for: an employee stands for its own
      email. */
  function AddressOf(r: Recipient): string
  {
    match r
    case Address(a) => a
    case Person(e) => e.email
  }

  /** What a search looks for: mails to `receiver`, at least `olderThan` and
      at most `newerThan` turns old when those are given, and satisfying
      `condition` when it is given and not empty. */
  datatype MailQuery = MailQuery(receiver: string, condition: Option<string>,
                                 olderThan: Option<int>, newerThan: Option<int>)

  /** The question put to the judge for a mail condition. */
  function JudgePrompt(condition: string): string
  {
    "You should set the condition as true if the following proposition is true: " + condition + "''"
  }

  /** A missing or empty condition asks nothing of the mail. */
  predicate Unconditioned(condition: Option<string>)
  {
    condition.None? || condition.value == ""
  }

  /** A mail `age` turns old lies in the window the optional bounds give. */
  predicate InWindow(age: int, olderThan: Option<int>, newerThan: Option<int>)
  {
    && (olderThan.None? || age >= olderThan.value)
    && (newerThan.None? || age <= newerThan.value)
  }

  /** The mail, seen at turn `now`, is one the query looks for. */
  predicate Accepts(m: Email, now: int, q: MailQuery, judge: (string, Email) -> bool)
  {
    && InWindow(now - m.turn, q.olderThan, q.newerThan)
    && m.receiver == q.receiver
    && (Unconditioned(q.condition) || judge(JudgePrompt(q.condition.value), m))
  }

  /** Some mail of the list is one the query looks for. */
  predicate Found(mails: seq<Email>, now: int, q: MailQuery, judge: (string, Email) -> bool)
  {
    exists i :: 0 <= i < |mails| && Accepts(mails[i], now, q, judge)
  }

  /** The loop of `mail_exists` over a sent list seen at turn `now`: a mail
      outside the age window is skipped before its receiver is looked at; a
      mail to the receiver ends the search when there is no condition, and
      otherwise when the judge accepts it. */
  method SearchSent(mails: seq<Email>, now: int, q: MailQuery, judge: (string, Email) -> bool)
    returns (r: bool)
    ensures r == Found(mails, now, q, judge)
  {
    for i := 0 to |mails|
      invariant forall k :: 0 <= k < i ==> !Accepts(mails[k], now, q, judge)
    {
      var m := mails[i];
      if q.olderThan.Some? && now - m.turn < q.olderThan.value {
        continue;
      }
      if q.newerThan.Some? && now - m.turn > q.newerThan.value {
        continue;
      }
      if q.receiver == m.receiver {
        if q.condition.None? || q.condition.value == "" {
          assert Accepts(mails[i], now, q, judge);
          return true;
        }
        if judge(JudgePrompt(q.condition.value), m) {
          assert Accepts(mails[i], now, q, judge);
          return true;
        }
      }
    }
    return false;
  }

  /** `mail_exists`: the search over the sender's sent mails at the current
      turn, where a receiver given as an employee stands for its email. */
  method MailExists(env: Environment, sender: Employee, receiver: Recipient,
                    condition: Option<string>, olderThan: Option<int>, newerThan: Option<int>,
                    judge: (string, Email) -> bool)
    returns (r: bool)
    ensures r == Found(sender.sentEmails, env.currentTurn, MailQuery(AddressOf(receiver), condition, olderThan, newerThan), judge)
  {
    r := SearchSent(sender.sentEmails, env.currentTurn, MailQuery(AddressOf(receiver), condition, olderThan, newerThan), judge);
  }

  /** Without a condition, a mail exists exactly when an in-window mail to
      the receiver was sent; a condition only narrows that down. */
  lemma ConditionNarrows(mails: seq<Email>, now: int, q: MailQuery, judge: (string, Email) -> bool)
    ensures Unconditioned(q.condition) ==>
              (Found(mails, now, q, judge) <==>
                 exists i :: 0 <= i < |mails| && mails[i].receiver == q.receiver
                                && InWindow(now - mails[i].turn, q.olderThan, q.newerThan))
    ensures Found(mails, now, q, judge) ==> Found(mails, now, q.(condition := None), judge)
  {
    if Found(mails, now, q, judge) {
      var i :| 0 <= i < |mails| && Accepts(mails[i], now, q, judge);
      assert Accepts(mails[i], now, q.(condition := None), judge);
    }
  }

  /** The judge is consulted only about in-window mails to the receiver:
      two judges that agree on those give the same answer. */
  lemma JudgedOnlyInWindow(mails: seq<Email>, now: int, q: MailQuery, judge1: (string, Email) -> bool,
                           judge2: (string, Email) -> bool)
    requires forall i, p :: 0 <= i < |mails| && mails[i].receiver == q.receiver
                            && InWindow(now - mails[i].turn, q.olderThan, q.newerThan) ==>
                              judge1(p, mails[i]) == judge2(p, mails[i])
    ensures Found(mails, now, q, judge1) == Found(mails, now, q, judge2)
  {
    if Found(mails, now, q, judge1) {
      var i :| 0 <= i < |mails| && Accepts(mails[i], now, q, judge1);
      assert Accepts(mails[i], now, q, judge2);
    }
    if Found(mails, now, q, judge2) {
      var i :| 0 <= i < |mails| && Accepts(mails[i], now, q, judge2);
      assert Accepts(mails[i], now, q, judge1);
    }
  }

  /** Nothing is found in an empty list; sending one more mail finds what
      was found before, plus that mail when the query accepts it. */
  lemma FoundAppend(mails: seq<Email>, m: Email, now: int, q: MailQuery, judge: (string, Email) -> bool)
    ensures !Found([], now, q, judge)
    ensures Found(mails + [m], now, q, judge) <==> Found(mails, now, q, judge) || Accepts(m, now, q, judge)
  {
    var all := mails + [m];
    if Found(all, now, q, judge) {
      var i :| 0 <= i < |all| && Accepts(all[i], now, q, judge);
      if i < |mails| {
        assert all[i] == mails[i];
      }
    }
    if Found(mails, now, q, judge) {
      var i :| 0 <= i < |mails| && Accepts(mails[i], now, q, judge);
      assert all[i] == mails[i];
    }
    if Accepts(m, now, q, judge) {
      assert all[|mails|] == m;
    }
  }

  /** The query `mail_does_not_exists` hands to `mail_exists`: its fifth
      argument, `max_delta_turns`, is passed positionally and so lands in
      the `mail_older_than` slot. */
  function DeltaAsOlder(receiver: string, condition: Option<string>, maxDeltaTurns: Option<int>): MailQuery
  {
    MailQuery(receiver, condition, maxDeltaTurns, None)
  }

  /** The query meant by "no mail within `max_delta_turns` turns": the bound
      limits how old the mail may be. */
  function DeltaAsNewer(receiver: string, condition: Option<string>, maxDeltaTurns: Option<int>): MailQuery
  {
    MailQuery(receiver, condition, None, maxDeltaTurns)
  }

  /** `mail_does_not_exists` as written: the negation of `mail_exists` with
      `max_delta_turns` taken as the minimum age. */
  method MailDoesNotExist(env: Environment, sender: Employee, receiver: Recipient,
                          condition: Option<string>, maxDeltaTurns: Option<int>,
                          judge: (string, Email) -> bool)
    returns (r: bool)
    ensures r <==> !Found(sender.sentEmails, env.currentTurn, DeltaAsOlder(AddressOf(receiver), condition, maxDeltaTurns), judge)
  {
    var found := MailExists(env, sender, receiver, condition, maxDeltaTurns, None, judge);
    r := !found;
  }

  /** `mail_does_not_exists` with `max_delta_turns` as the maximum age: true
      exactly when no mail to the receiver that satisfies the condition was
      sent within the last `max_delta_turns` turns. */
  method MailDoesNotExistWithin(env: Environment, sender: Employee, receiver: Recipient,
                                condition: Option<string>, maxDeltaTurns: Option<int>,
                                judge: (string, Email) -> bool)
    returns (r: bool)
    ensures r <==> forall i :: 0 <= i < |sender.sentEmails| ==>
                     var m := sender.sentEmails[i];
                     m.receiver == AddressOf(receiver) && (maxDeltaTurns.None? || env.currentTurn - m.turn <= maxDeltaTurns.value) ==>
                       !(Unconditioned(condition) || judge(JudgePrompt(condition.value), m))
  {
    var found := MailExists(env, sender, receiver, condition, None, maxDeltaTurns, judge);
    r := !found;
  }

  /** Without a bound both readings agree; this is the only way the
      scenarios call `mail_does_not_exists`. */
  lemma DeltaReadingsAgreeUnbounded(mails: seq<Email>, now: int, receiver: string, condition: Option<string>,
                                    judge: (string, Email) -> bool)
    ensures Found(mails, now, DeltaAsOlder(receiver, condition, None), judge)
            == Found(mails, now, DeltaAsNewer(receiver, condition, None), judge)
  {
    assert DeltaAsOlder(receiver, condition, None) == DeltaAsNewer(receiver, condition, None);
  }

  /** A mail sent this very turn: with a bound of one turn, the code as
      written reports that no mail exists, while one was sent within that
      bound. */
  lemma DeltaAsOlderMissesRecentMail(judge: (string, Email) -> bool)
    ensures var mails := [Email("agent@company.com", "ibrahim.mendoza@company.com", "", "", 4)];
            && !Found(mails, 4, DeltaAsOlder("ibrahim.mendoza@company.com", None, Some(1)), judge)
            && Found(mails, 4, DeltaAsNewer("ibrahim.mendoza@company.com", None, Some(1)), judge)
  {
    var mails := [Email("agent@company.com", "ibrahim.mendoza@company.com", "", "", 4)];
    assert Accepts(mails[0], 4, DeltaAsNewer("ibrahim.mendoza@company.com", None, Some(1)), judge);
  }
}
