/** The scenario "send a mail to an NLP candidate"
    (tasks/send_mail_to_candidate.py): the predicates its goals and
    reactions test, and the wiring `setup_task` performs on an environment.
    Whether a mail satisfies a condition written in natural language, and
    whether an employee's context supports a proposition, are decided by the
    judges passed in. */
module SendMailToCandidate {
  import opened Wrappers
  import opened Text
  import opened Actions
  import opened Mail
  import opened Tasks
  import opened Employees
  import opened Agents
  import opened Environments
  import opened GenericConditions

  /** The command sends a mail from `sender` to `target`. */
  predicate SendsMail(c: Command, sender: string, target: string)
  {
    c.SendEmail? && c.sender == sender && c.receiver == target
  }

  /** Some action of the history sends a mail from `sender` to `target`. */
  predicate SentTo(history: seq<Action>, sender: string, target: string)
  {
    exists i :: 0 <= i < |history| && SendsMail(history[i].command, sender, target)
  }

  /** `has_sent_email`: the employee's history holds a mail it sent from its
      own address to `target`. */
  method HasSentEmail(employee: Employee, target: string) returns (r: bool)
    ensures r == SentTo(employee.actions, employee.email, target)
  {
    var history := employee.actions;
    for i := 0 to |history|
      invariant forall k :: 0 <= k < i ==> !SendsMail(history[k].command, employee.email, target)
    {
      var c := history[i].command;
      if c.SendEmail? {
        if c.sender == employee.email && c.receiver == target {
          return true;
        }
      }
    }
    return false;
  }

  /** An empty history has sent nothing; executing one more action keeps
      every mail already sent and adds the one that action sends. */
  lemma SentToAppend(history: seq<Action>, a: Action, sender: string, target: string)
    ensures !SentTo([], sender, target)
    ensures SentTo(history + [a], sender, target) <==> SentTo(history, sender, target) || SendsMail(a.command, sender, target)
  {
    var all := history + [a];
    if SentTo(all, sender, target) {
      var i :| 0 <= i < |all| && SendsMail(all[i].command, sender, target);
      if i < |history| {
        assert all[i] == history[i];
      }
    }
    if SentTo(history, sender, target) {
      var i :| 0 <= i < |history| && SendsMail(history[i].command, sender, target);
      assert all[i] == history[i];
    }
    if SendsMail(a.command, sender, target) {
      assert all[|history|] == a;
    }
  }

  /** Some mail of the list comes from `sender`. */
  predicate ReceivedFrom(mails: seq<Email>, sender: string)
  {
    exists i :: 0 <= i < |mails| && mails[i].sender == sender
  }

  /** `received_mail_from_agent`. */
  method ReceivedMailFromAgent(employee: Employee, env: Environment) returns (r: bool)
    ensures r == ReceivedFrom(employee.receivedEmails, env.agent.employee.email)
  {
    var mails := employee.receivedEmails;
    for i := 0 to |mails|
      invariant forall k :: 0 <= k < i ==> mails[k].sender != env.agent.employee.email
    {
      if mails[i].sender == env.agent.employee.email {
        return true;
      }
    }
    return false;
  }

  /** The senders of a mail list, in order. */
  function Senders(mails: seq<Email>): seq<string>
  {
    seq(|mails|, i requires 0 <= i < |mails| => mails[i].sender)
  }

  /** `has_not_received_mail`: the turn is past `maxTurn` and the agent is
      not among the senders of the employee's received mails. */
  function HasNotReceivedMail(env: Environment, employee: Employee, maxTurn: int): (r: bool)
    reads env, employee
    ensures r <==> env.currentTurn > maxTurn && !ReceivedFrom(employee.receivedEmails, env.agent.employee.email)
  {
    var senders := Senders(employee.receivedEmails);
    assert forall i :: 0 <= i < |senders| ==> senders[i] == employee.receivedEmails[i].sender;
    env.currentTurn > maxTurn && env.agent.employee.email !in senders
  }

  function Abs(x: int): nat
  {
    if x < 0 then -x else x
  }

  /** Some mail from `sender` in the list is stamped with turn `now`. */
  predicate RecentFrom(mails: seq<Email>, sender: string, now: int)
  {
    exists i :: 0 <= i < |mails| && mails[i].sender == sender && Abs(mails[i].turn - now) == 0
  }

  /** `agent_mail_was_recent`: a flag set by any received mail from the
      agent sent in the current turn. */
  method AgentMailWasRecent(employee: Employee, env: Environment) returns (r: bool)
    ensures r == RecentFrom(employee.receivedEmails, env.agent.employee.email, env.currentTurn)
  {
    var mailWasRecent := false;
    var mails := employee.receivedEmails;
    for i := 0 to |mails|
      invariant mailWasRecent <==> exists k :: 0 <= k < i && mails[k].sender == env.agent.employee.email
                                                       && Abs(mails[k].turn - env.currentTurn) == 0
    {
      if mails[i].sender == env.agent.employee.email && Abs(mails[i].turn - env.currentTurn) == 0 {
        mailWasRecent := true;
      }
    }
    r := mailWasRecent;
  }

  /** A recent mail is one stamped with the current turn itself, and a
      recent mail from the agent is a mail received from the agent. */
  lemma RecentMeansThisTurn(mails: seq<Email>, sender: string, now: int)
    ensures RecentFrom(mails, sender, now) <==> exists i :: 0 <= i < |mails| && mails[i].sender == sender && mails[i].turn == now
    ensures RecentFrom(mails, sender, now) ==> ReceivedFrom(mails, sender)
  {
    if RecentFrom(mails, sender, now) {
      var i :| 0 <= i < |mails| && mails[i].sender == sender && Abs(mails[i].turn - now) == 0;
      assert mails[i].turn == now;
    }
  }

  /** Whether the trigger of a reaction held by `owner` is met: `judge`
      decides mail conditions, `contextJudge` decides a proposition against
      the context of the employee with the given address. */
  predicate TriggerHolds(env: Environment, owner: Employee, t: Trigger,
                         judge: (string, Email) -> bool, contextJudge: (string, string) -> bool)
    reads env, env.agent.employee, owner
  {
    var agent := env.agent.employee;
    match t
    case AgentMailTo(receiver, condition, newerThan) =>
      Found(agent.sentEmails, env.currentTurn, MailQuery(receiver, condition, None, newerThan), judge)
    case LateAndNoAgentMailTo(fromTurn, receiver) =>
      env.currentTurn >= fromTurn && !Found(agent.sentEmails, env.currentTurn, DeltaAsNewer(receiver, None, None), judge)
    case AgentMailReceivedAndJudged(proposition) =>
      ReceivedFrom(owner.receivedEmails, agent.email) && contextJudge(proposition, owner.email)
  }

  /** A goal condition of this scenario: the agent sent a mail to `target`. */
  datatype GoalCondition = AgentSentEmailTo(target: string)

  /** The value `has_sent_email(env.agent, target)` gives a goal condition. */
  predicate ConditionHolds(env: Environment, c: GoalCondition)
    reads env.agent.employee
  {
    SentTo(env.agent.employee.actions, env.agent.employee.email, c.target)
  }

  /** An entry of a task's behaviours (task.py): stored, never read. */
  datatype Behaviour = Behaviour(employee: Employee, conditions: map<seq<string>, string>)

  const IbrahimName: string := "Ibrahim Mendoza"
  const MadelineName: string := "Madeline Brooks"
  const ChenName: string := "Chen Wei"
  const LeaName: string := "L\U{E9}a Dubois"
  const HermandesName: string := "Hermandes Garcia"
  /** The names `setup_task` looks up, in the order it looks them up. */
  const StaffNames: seq<string> := [IbrahimName, MadelineName, ChenName, LeaName, HermandesName]
  const TariqEmail: string := "tariq.hassan@example.com"
  /** The receiver the scripted replies are addressed to. */
  const DynamicReceiver: string := "dynamic::"

  const NeedHireKey: string := "send-mail-agent-need-hire"
  const ProvidesKey: string := "provides-madeline-email"
  const HelpKey: string := "ibrahim-requires-help"
  const ReplyKey: string := "reply"
  const HiresKey: string := "send-hires-list"

  /** A text with the agent's address spliced in. */
  datatype Template = Template(head: string, tail: string)

  function Fill(t: Template, address: string): string
  {
    t.head + address + t.tail
  }

  /** The wording of the scenario: the instruction lines, and the
      conditions and texts of the reactions. `setup_task` uses `NlpWording`;
      everything proved here holds for any wording. */
  datatype Wording = Wording(
    dataLines: seq<string>, hrLines: seq<string>, techLine: string, ibrahimLine: Template,
    needHireAsk: Template, needHireText: string,
    providesAsk: Template, providesText: string,
    helpSubject: string, helpText: string,
    hiresAsk: Template, hiresText: string)

  const NlpWording: Wording := Wording(
    [ "If the agent contacts you " +
      "asking for directions about " +
      "what to do, say that you are " +
      "aware that the team (Ibrahim " +
      "especially) is in need of a new " +
      "hire.",
      "If the agent contacts you " +
      "asking for who to contact to " +
      "get a list of potential " +
      "candidates, redirect him to " +
      "Madeline from HR.",
      "If the agent contacts you for " +
      "anything else, try to assist " +
      "him the best you can. If you " +
      "don't have enough information, " +
      "reply by saying you don't know." ],
    [ "If the agent contacts you " +
      "asking for a list of potential " +
      "candidates, redirect them to " +
      "Madeline from the HR department.",
      "If the agent contacts you for " +
      "anything else, say that you do " +
      "not have any more information." ],
    "You don't know anything about " +
    "the agent's request. Need to " +
    "redirect to more adequate " +
    "people.",
    Template("If you received a mail from ",
             ", you will reply by saying you " +
             "would like to hire a new " +
             "employee that has some solid " +
             "knowledge about WikiFactDiff " +
             "and say that once he has found " +
             "a candidate, he can directly " +
             "send a mail to the candidate. " +
             "If not, do nothing."),
    Template("",
             " is reaching out to assist " +
             "you, or is asking for " +
             "additional information."),
    "Thanks for emailing me, " +
    "actually, I would like to hire " +
    "a new employee for our work on " +
    "WikiFactDiff. The candidate " +
    "should have already worked on " +
    "WikiFactDIff previously. Once " +
    "you have chosen a potential " +
    "candidate, please send him a " +
    "mail!\n\nBy the way, do you know " +
    "where to find a list of " +
    "potential candidates?\n\nIbrahim",
    Template("Condition should be valid if ",
             " is reaching out to ask for " +
             "more information about who to " +
             "contact."),
    "Hey Agent, I believe if you " +
    "need a list of potential " +
    "candidates, you should probably " +
    "contact " +
    "madeline.brooks@company.com",
    "RE: Requiring immediate help.",
    "Dear Agent,\n\nI hope this " +
    "message finds you well. I am " +
    "writing to express my concern " +
    "regarding the delay in the " +
    "hiring process for " +
    "WikiFactDiff. It has been quite " +
    "some time since we initiated " +
    "this process, and I cannot help " +
    "but wonder why there has been a " +
    "lack of communication and " +
    "action on your part.\n\nThe " +
    "urgency of filling these " +
    "positions cannot be " +
    "understated, and it is crucial " +
    "that we move forward without " +
    "further delays. I expect prompt " +
    "attention \nto this matter and " +
    "an update on the current status " +
    "as soon as possible. If needed, " +
    "please contact Madeline.\n\nThank " +
    "you for addressing this issue " +
    "immediately.\n\nBest " +
    "regards,\nIbrahim Mendoza",
    Template("Condition should be valid if " +
             "received a mail from ",
             " asking for help with the " +
             "hiring of a new employee."),
    "Hello Agent,\nI am transfering " +
    "to your downloads folder a list " +
    "of potential hires. If you find " +
    "someone interesting, please " +
    "send them an email and I'll set " +
    "up an appointment " +
    "later.\n\nMadeline.")

  /** Ibrahim answers a mail from the agent offering help or asking for
      information. */
  function NeedHire(ibrahimEmail: string, agentEmail: string, w: Wording): Reaction
  {
    Conditioned(AgentMailTo(ibrahimEmail, Some(Fill(w.needHireAsk, agentEmail)), None),
                SendEmail(agentEmail, DynamicReceiver, Literal(w.needHireText)), 1, [], false)
  }

  /** Ibrahim points the agent to Madeline, once he has answered it. */
  function Provides(ibrahimEmail: string, agentEmail: string, w: Wording): Reaction
  {
    Conditioned(AgentMailTo(ibrahimEmail, Some(Fill(w.providesAsk, agentEmail)), None),
                SendEmail(agentEmail, DynamicReceiver, Literal(w.providesText)), 1, [NeedHireKey], false)
  }

  /** Ibrahim complains from turn 3 on if the agent has not written to him. */
  function RequiresHelp(ibrahimEmail: string, agentEmail: string, w: Wording): Reaction
  {
    Conditioned(LateAndNoAgentMailTo(3, ibrahimEmail), SendEmail(agentEmail, w.helpSubject, Literal(w.helpText)), -10, [], false)
  }

  /** Any other employee answers, from its own context, a mail the agent
      sent it in the current turn; this reaction stays after firing. */
  function ReplyTo(e: Employee, agentEmail: string): Reaction
  {
    Conditioned(AgentMailTo(e.email, None, Some(0)), SendEmail(agentEmail, DynamicReceiver, Generated(e.email)), 0, [], true)
  }

  /** Madeline sends the list of candidates to an agent asking for help with
      the hiring. */
  function Hires(agentEmail: string, w: Wording): Reaction
  {
    Conditioned(AgentMailReceivedAndJudged(Fill(w.hiresAsk, agentEmail)),
                SendEmail(agentEmail, DynamicReceiver, Literal(w.hiresText)), 1, [], false)
  }

  /** The employees `setup_task` looks up by name. */
  datatype Staff = Staff(ibrahim: Employee, madeline: Employee, chen: Employee, lea: Employee, hermandes: Employee)

  /** The employee `get_employee_by_name` finds, if any. */
  function Find(env: Environment, name: string): (r: Option<Employee>)
    ensures r.Some? ==> r.value in env.employees && r.value.name == name
    ensures r.None? <==> forall k :: 0 <= k < |env.employees| ==> env.employees[k].name != name
  {
    match FirstIndex(env.employees, NamedBy(name))
    case Some(i) => Some(env.employees[i])
    case None => None
  }

  /** Nobody in the environment has the name. */
  function Unknown(env: Environment): string -> bool
  {
    name => Find(env, name).None?
  }

  /** The lookups of `setup_task`, in order: the first name nobody has
      stops the scenario with its `KeyError`. */
  function StaffOf(env: Environment): (r: Result<Staff, string>)
    ensures r.Success? ==> && r.value.ibrahim in env.employees && r.value.ibrahim.name == IbrahimName
                           && r.value.madeline in env.employees && r.value.madeline.name == MadelineName
                           && r.value.chen in env.employees && r.value.chen.name == ChenName
                           && r.value.lea in env.employees && r.value.lea.name == LeaName
                           && r.value.hermandes in env.employees && r.value.hermandes.name == HermandesName
  {
    if Find(env, IbrahimName).None? then Failure(NameNotFound(IbrahimName))
    else if Find(env, MadelineName).None? then Failure(NameNotFound(MadelineName))
    else if Find(env, ChenName).None? then Failure(NameNotFound(ChenName))
    else if Find(env, LeaName).None? then Failure(NameNotFound(LeaName))
    else if Find(env, HermandesName).None? then Failure(NameNotFound(HermandesName))
    else Success(Staff(Find(env, IbrahimName).value, Find(env, MadelineName).value, Find(env, ChenName).value,
                       Find(env, LeaName).value, Find(env, HermandesName).value))
  }

  /** The first element satisfying `p` is at `j` when `s[j]` does and no
      earlier one does. */
  lemma FirstIndexAt<T>(s: seq<T>, p: T -> bool, j: nat)
    requires j < |s| && p(s[j])
    requires forall k :: 0 <= k < j ==> !p(s[k])
    ensures FirstIndex(s, p) == Some(j)
  {
  }

  /** The first of five elements satisfying `p`, tried in order. */
  lemma FirstIndexOfFive<T>(a: T, b: T, c: T, d: T, e: T, p: T -> bool)
    ensures FirstIndex([a, b, c, d, e], p)
            == if p(a) then Some(0) else if p(b) then Some(1) else if p(c) then Some(2)
               else if p(d) then Some(3) else if p(e) then Some(4) else None
  {
    var s := [a, b, c, d, e];
    if p(a) {
      FirstIndexAt(s, p, 0);
    } else if p(b) {
      FirstIndexAt(s, p, 1);
    } else if p(c) {
      FirstIndexAt(s, p, 2);
    } else if p(d) {
      FirstIndexAt(s, p, 3);
    } else if p(e) {
      FirstIndexAt(s, p, 4);
    } else {
      assert forall k :: 0 <= k < |s| ==> !p(s[k]);
    }
  }

  /** The lookups fail exactly when some name of `StaffNames` is unknown,
      and then with the error of the first unknown name. */
  lemma StaffOfFailsFirst(env: Environment)
    ensures var first := FirstIndex(StaffNames, Unknown(env));
            && (StaffOf(env).Failure? <==> first.Some?)
            && (first.Some? ==> StaffOf(env).error == NameNotFound(StaffNames[first.value]))
  {
    FirstIndexOfFive(IbrahimName, MadelineName, ChenName, LeaName, HermandesName, Unknown(env));
  }

  /** The lookups at the start of `setup_task`. */
  method ResolveStaff(env: Environment) returns (r: Result<Staff, string>)
    ensures r == StaffOf(env)
  {
    var ibrahim := env.GetEmployeeByName(IbrahimName);
    if ibrahim.Failure? {
      return Failure(ibrahim.error);
    }
    var madeline := env.GetEmployeeByName(MadelineName);
    if madeline.Failure? {
      return Failure(madeline.error);
    }
    var chen := env.GetEmployeeByName(ChenName);
    if chen.Failure? {
      return Failure(chen.error);
    }
    var lea := env.GetEmployeeByName(LeaName);
    if lea.Failure? {
      return Failure(lea.error);
    }
    var hermandes := env.GetEmployeeByName(HermandesName);
    if hermandes.Failure? {
      return Failure(hermandes.error);
    }
    return Success(Staff(ibrahim.value, madeline.value, chen.value, lea.value, hermandes.value));
  }

  /** The contacts map `setup_task` gives the agent. */
  function AgentContacts(s: Staff): (book: ContactBook<Employee>)
    ensures book.Valid()
    ensures book.entries.Keys == {12, 13, 14, 15}
    ensures book.Values() == [s.chen, s.lea, s.ibrahim, s.hermandes]
  {
    ContactBook([12, 13, 14, 15], map[12 := s.chen, 13 := s.lea, 14 := s.ibrahim, 15 := s.hermandes])
  }

  /** `part` occurs in `text` at position `i`. */
  predicate OccursAt(text: string, part: string, i: nat)
  {
    i + |part| <= |text| && text[i..i + |part|] == part
  }

  /** Python's `part in text` on strings. */
  predicate ContainsText(text: string, part: string)
  {
    exists i: nat :: i <= |text| && OccursAt(text, part, i)
  }

  /** The instructions `setup_task` appends to an employee, in order: the
      data-team lines (not for anyone with Ibrahim's id), the HR lines (not
      for a name containing "Madeline"), the line for developers and
      network staff, and Ibrahim's own line. */
  function Briefing(e: Employee, ibrahim: Employee, agentEmail: string, w: Wording): seq<string>
  {
    Added(e, ["data"], WithId(ibrahim.id), w.dataLines)
    + Added(e, ["HR"], NameContaining("Madeline"), w.hrLines)
    + Added(e, ["dev", "network"], Nobody, [w.techLine])
    + (if e == ibrahim then [Fill(w.ibrahimLine, agentEmail)] else [])
  }

  /** Which employees a loop of `setup_task` passes over. */
  datatype Exemption = WithId(id: int) | NameContaining(part: string) | Nobody

  predicate Exempt(e: Employee, x: Exemption)
  {
    match x
    case WithId(id) => e.id == id
    case NameContaining(part) => ContainsText(e.name, part)
    case Nobody => false
  }

  /** What one loop of `setup_task` appends to an employee. */
  function Added(e: Employee, tags: seq<string>, skip: Exemption, lines: seq<string>): seq<string>
  {
    if HasTag(e, tags) && !Exempt(e, skip) then lines else []
  }

  /** Appends `lines` to the instructions of every target not skipped; the
      other employees of `staff` keep theirs. */
  method InstructEach(staff: seq<Employee>, targets: seq<Employee>, skip: Exemption, lines: seq<string>)
    requires forall i, j :: 0 <= i < j < |targets| ==> targets[i] != targets[j]
    requires forall e :: e in targets ==> e in staff
    modifies staff`instructions
    ensures forall e :: e in targets ==> e.instructions == old(e.instructions) + (if Exempt(e, skip) then [] else lines)
    ensures forall e :: e in staff && e !in targets ==> e.instructions == old(e.instructions)
  {
    for i := 0 to |targets|
      invariant forall k :: 0 <= k < i ==>
                  targets[k].instructions == old(targets[k].instructions) + (if Exempt(targets[k], skip) then [] else lines)
      invariant forall k :: i <= k < |targets| ==> targets[k].instructions == old(targets[k].instructions)
      invariant forall e :: e in staff && e !in targets ==> e.instructions == old(e.instructions)
    {
      var e := targets[i];
      if Exempt(e, skip) {
        continue;
      }
      assert e in targets;
      e.instructions := e.instructions + lines;
    }
  }

  /** One loop of `setup_task` over the employees having one of `tags`. */
  method InstructTagged(env: Environment, tags: seq<string>, skip: Exemption, lines: seq<string>)
    requires env.Distinct()
    modifies env.employees`instructions
    ensures forall e :: e in env.employees ==>
              e.instructions == old(e.instructions) + Added(e, tags, skip, lines)
  {
    TaggedIff(env.employees, tags);
    var targets := env.GetEmployeesByTag(tags);
    InstructEach(env.employees, targets, skip, lines);
  }

  /** The instruction part of `setup_task`. */
  method Instruct(env: Environment, ibrahim: Employee, agentEmail: string, w: Wording)
    requires env.Distinct() && ibrahim in env.employees
    modifies env.employees`instructions
    ensures forall e :: e in env.employees ==>
              e.instructions == old(e.instructions) + Briefing(e, ibrahim, agentEmail, w)
  {
    InstructTagged(env, ["data"], WithId(ibrahim.id), w.dataLines);
    InstructTagged(env, ["HR"], NameContaining("Madeline"), w.hrLines);
    InstructTagged(env, ["dev", "network"], Nobody, [w.techLine]);
    ibrahim.instructions := ibrahim.instructions + [Fill(w.ibrahimLine, agentEmail)];
    forall e | e in env.employees
      ensures e.instructions == old(e.instructions) + Briefing(e, ibrahim, agentEmail, w)
    {
      AppendFour(old(e.instructions), Added(e, ["data"], WithId(ibrahim.id), w.dataLines),
                 Added(e, ["HR"], NameContaining("Madeline"), w.hrLines),
                 Added(e, ["dev", "network"], Nobody, [w.techLine]),
                 if e == ibrahim then [Fill(w.ibrahimLine, agentEmail)] else []);
    }
  }

  /** Appending four pieces one after the other appends their
      concatenation. */
  lemma AppendFour<T>(s: seq<T>, a: seq<T>, b: seq<T>, c: seq<T>, d: seq<T>)
    ensures s + a + b + c + d == s + (a + b + c + d)
  {
  }

  /** Ibrahim's three reactions. */
  function IbrahimPlan(before: map<string, Reaction>, ibrahimEmail: string, agentEmail: string, w: Wording): map<string, Reaction>
  {
    before[NeedHireKey := NeedHire(ibrahimEmail, agentEmail, w)]
          [ProvidesKey := Provides(ibrahimEmail, agentEmail, w)]
          [HelpKey := RequiresHelp(ibrahimEmail, agentEmail, w)]
  }

  /** The reply reaction, for every employee whose id is neither Ibrahim's
      nor Madeline's. */
  function ReplyPlan(before: map<string, Reaction>, e: Employee, s: Staff, agentEmail: string): map<string, Reaction>
  {
    if e.id == s.ibrahim.id || e.id == s.madeline.id then before else before[ReplyKey := ReplyTo(e, agentEmail)]
  }

  /** The preplanned actions `setup_task` leaves an employee with: Ibrahim's
      reactions, then the replies, then Madeline's reaction. */
  function Planned(before: map<string, Reaction>, e: Employee, s: Staff, agentEmail: string, w: Wording): map<string, Reaction>
  {
    var withIbrahim := if e == s.ibrahim then IbrahimPlan(before, s.ibrahim.email, agentEmail, w) else before;
    var withReply := ReplyPlan(withIbrahim, e, s, agentEmail);
    if e == s.madeline then withReply[HiresKey := Hires(agentEmail, w)] else withReply
  }

  /** Gives every target whose id is neither Ibrahim's nor Madeline's its
      reply reaction. */
  method ReplyEach(targets: seq<Employee>, s: Staff, agentEmail: string)
    requires forall i, j :: 0 <= i < j < |targets| ==> targets[i] != targets[j]
    modifies targets`preplannedActions
    ensures forall e :: e in targets ==> e.preplannedActions == ReplyPlan(old(e.preplannedActions), e, s, agentEmail)
  {
    for i := 0 to |targets|
      invariant forall k :: 0 <= k < i ==>
                  targets[k].preplannedActions == ReplyPlan(old(targets[k].preplannedActions), targets[k], s, agentEmail)
      invariant forall k :: i <= k < |targets| ==> targets[k].preplannedActions == old(targets[k].preplannedActions)
    {
      var e := targets[i];
      if e.id == s.ibrahim.id || e.id == s.madeline.id {
        continue;
      }
      e.preplannedActions := e.preplannedActions[ReplyKey := ReplyTo(e, agentEmail)];
    }
  }

  /** The reaction part of `setup_task`. */
  method PlanReactions(env: Environment, s: Staff, agentEmail: string, w: Wording)
    requires env.Distinct() && s.ibrahim in env.employees && s.madeline in env.employees
    modifies env.employees`preplannedActions
    ensures forall e :: e in env.employees ==>
              e.preplannedActions == Planned(old(e.preplannedActions), e, s, agentEmail, w)
  {
    var ibrahim := s.ibrahim;
    ibrahim.preplannedActions := ibrahim.preplannedActions[NeedHireKey := NeedHire(ibrahim.email, agentEmail, w)];
    ibrahim.preplannedActions := ibrahim.preplannedActions[ProvidesKey := Provides(ibrahim.email, agentEmail, w)];
    ibrahim.preplannedActions := ibrahim.preplannedActions[HelpKey := RequiresHelp(ibrahim.email, agentEmail, w)];
    label Ibrahim:
    ReplyEach(env.employees, s, agentEmail);
    label Replies:
    s.madeline.preplannedActions := s.madeline.preplannedActions[HiresKey := Hires(agentEmail, w)];
    forall e | e in env.employees
      ensures e.preplannedActions == Planned(old(e.preplannedActions), e, s, agentEmail, w)
    {
      assert old@Ibrahim(e.preplannedActions)
               == if e == s.ibrahim then IbrahimPlan(old(e.preplannedActions), s.ibrahim.email, agentEmail, w)
                  else old(e.preplannedActions);
      assert old@Replies(e.preplannedActions) == ReplyPlan(old@Ibrahim(e.preplannedActions), e, s, agentEmail);
    }
  }

  /** The task `setup_task` returns: talking to Ibrahim, and mailing Tariq,
      which alone ends the run. */
  function NlpTask(ibrahimEmail: string): (t: Task<GoalCondition, Behaviour>)
    ensures t.taskId == "send-mail-to-nlp-candidate" && t.taskGoal == "You need to assist Ibrahim." && t.behaviours == []
    ensures |t.completionGoals| == 2
    ensures forall g :: g in t.completionGoals ==> |g.conditions| == 1
    ensures forall g :: g in t.completionGoals ==> (g.triggersCompletion <==> g.name == "send-mail-to-tariq")
  {
    Task("send-mail-to-nlp-candidate", "You need to assist Ibrahim.",
         [Goal("talk-to-ibrahim", [AgentSentEmailTo(ibrahimEmail)]),
          Goal("send-mail-to-tariq", [AgentSentEmailTo(TariqEmail)], true)],
         [])
  }

  /** What `setup_task` does once the staff is found: the agent's
      contacts, then the instructions, then the reactions. */
  method Wire(env: Environment, s: Staff, w: Wording)
    requires env.Distinct() && s.ibrahim in env.employees && s.madeline in env.employees
    modifies env.agent.employee`contactsMap, env.employees`instructions, env.employees`preplannedActions
    ensures env.agent.employee.contactsMap == AgentContacts(s)
    ensures forall e :: e in env.employees ==>
              && e.instructions == old(e.instructions) + Briefing(e, s.ibrahim, env.agent.employee.email, w)
              && e.preplannedActions == Planned(old(e.preplannedActions), e, s, env.agent.employee.email, w)
  {
    var agentEmail := env.agent.employee.email;
    env.agent.employee.contactsMap := AgentContacts(s);
    Instruct(env, s.ibrahim, agentEmail, w);
    PlanReactions(env, s, agentEmail, w);
  }

  /** The body of `setup_task` for a given wording: looks the staff up (a
      missing name raises before anything changes), gives the agent its
      contacts, the employees their instructions and reactions, and returns
      the task. */
  method Setup(env: Environment, w: Wording) returns (r: Result<Task<GoalCondition, Behaviour>, string>)
    requires env.Distinct()
    modifies env.agent.employee`contactsMap, env.employees`instructions, env.employees`preplannedActions
    ensures StaffOf(env).Failure? ==>
              && r == Failure(StaffOf(env).error)
              && unchanged(env.agent.employee)
              && forall e :: e in env.employees ==> unchanged(e)
    ensures StaffOf(env).Success? ==>
              var s := StaffOf(env).value;
              && r == Success(NlpTask(s.ibrahim.email))
              && env.agent.employee.contactsMap == AgentContacts(s)
              && forall e :: e in env.employees ==>
                   && e.instructions == old(e.instructions) + Briefing(e, s.ibrahim, env.agent.employee.email, w)
                   && e.preplannedActions == Planned(old(e.preplannedActions), e, s, env.agent.employee.email, w)
  {
    var staff := ResolveStaff(env);
    if staff.Failure? {
      return Failure(staff.error);
    }
    Wire(env, staff.value, w);
    return Success(NlpTask(staff.value.ibrahim.email));
  }

  /** `setup_task`, with the scenario's own wording. */
  method SetupTask(env: Environment) returns (r: Result<Task<GoalCondition, Behaviour>, string>)
    requires env.Distinct()
    modifies env.agent.employee`contactsMap, env.employees`instructions, env.employees`preplannedActions
    ensures StaffOf(env).Failure? ==>
              && r == Failure(StaffOf(env).error)
              && unchanged(env.agent.employee)
              && forall e :: e in env.employees ==> unchanged(e)
    ensures StaffOf(env).Success? ==>
              var s := StaffOf(env).value;
              && r == Success(NlpTask(s.ibrahim.email))
              && env.agent.employee.contactsMap == AgentContacts(s)
              && forall e :: e in env.employees ==>
                   && e.instructions == old(e.instructions) + Briefing(e, s.ibrahim, env.agent.employee.email, NlpWording)
                   && e.preplannedActions == Planned(old(e.preplannedActions), e, s, env.agent.employee.email, NlpWording)
  {
    r := Setup(env, NlpWording);
  }

  /** Reaching a goal ends the run exactly when the agent has mailed Tariq:
      talking to Ibrahim scores, but never ends the run. */
  lemma NlpTaskEndsOnTariq(ibrahimEmail: string, holds: GoalCondition -> bool)
    ensures Scheduler.GoalsMet(NlpTask(ibrahimEmail).completionGoals, holds) <==> holds(AgentSentEmailTo(TariqEmail))
  {
    var goals := NlpTask(ibrahimEmail).completionGoals;
    Scheduler.GoalsMetAmongIff(goals, holds, |goals|);
    ScoreOneIffAll(goals[1], holds);
  }

  /** Every employee other than Ibrahim and Madeline (by id) gets a reply
      reaction worth 0 that stays after firing and answers a mail the agent
      sent it in the current turn; every reaction it had is kept. */
  lemma ReplyPlanned(before: map<string, Reaction>, e: Employee, s: Staff, agentEmail: string, w: Wording)
    requires e.id != s.ibrahim.id && e.id != s.madeline.id
    ensures var after := Planned(before, e, s, agentEmail, w);
            && ReplyKey in after
            && after[ReplyKey].Conditioned? && after[ReplyKey].score == 0 && after[ReplyKey].staysAfterCompletion
            && after[ReplyKey].trigger == AgentMailTo(e.email, None, Some(0))
            && forall k :: k in before && k != ReplyKey ==> k in after && after[k] == before[k]
  {
    assert e != s.ibrahim && e != s.madeline;
  }

  /** Ibrahim's reactions: pointing to Madeline needs the answer about the
      hiring first, while the complaint needs nothing and costs 10 points. */
  lemma IbrahimPlanned(before: map<string, Reaction>, s: Staff, agentEmail: string, w: Wording)
    requires s.ibrahim != s.madeline
    ensures var after := Planned(before, s.ibrahim, s, agentEmail, w);
            && after[ProvidesKey].prerequisites == [NeedHireKey]
            && after[HelpKey].prerequisites == [] && after[HelpKey].score == -10
            && after[NeedHireKey].score == 1 && after[ProvidesKey].score == 1
            && (ReplyKey !in before ==> ReplyKey !in after)
  {
  }

  /** The reply trigger of an employee holds exactly when the agent has sent
      it a mail stamped with the current turn (or a later one). */
  lemma ReplyTriggerIff(env: Environment, owner: Employee, e: Employee, agentEmail: string,
                        judge: (string, Email) -> bool, contextJudge: (string, string) -> bool)
    ensures var sent := env.agent.employee.sentEmails;
            TriggerHolds(env, owner, ReplyTo(e, agentEmail).trigger, judge, contextJudge) <==>
              exists i :: 0 <= i < |sent| && sent[i].receiver == e.email && sent[i].turn >= env.currentTurn
  {
    ConditionNarrows(env.agent.employee.sentEmails, env.currentTurn, MailQuery(e.email, None, None, Some(0)), judge);
  }

  /** Ibrahim's complaint fires from turn 3 on as long as the agent never
      wrote to him. */
  lemma HelpTriggerIff(env: Environment, owner: Employee, ibrahimEmail: string, agentEmail: string, w: Wording,
                       judge: (string, Email) -> bool, contextJudge: (string, string) -> bool)
    ensures var sent := env.agent.employee.sentEmails;
            TriggerHolds(env, owner, RequiresHelp(ibrahimEmail, agentEmail, w).trigger, judge, contextJudge) <==>
              env.currentTurn >= 3 && forall i :: 0 <= i < |sent| ==> sent[i].receiver != ibrahimEmail
  {
    ConditionNarrows(env.agent.employee.sentEmails, env.currentTurn, DeltaAsNewer(ibrahimEmail, None, None), judge);
  }

  /** Ibrahim's two answers need a mail from the agent to him, and
      Madeline's list needs a mail from the agent to her. */
  lemma AnswersNeedAgentMail(env: Environment, owner: Employee, ibrahimEmail: string, agentEmail: string, w: Wording,
                             judge: (string, Email) -> bool, contextJudge: (string, string) -> bool)
    ensures var sent := env.agent.employee.sentEmails;
            (TriggerHolds(env, owner, NeedHire(ibrahimEmail, agentEmail, w).trigger, judge, contextJudge)
               || TriggerHolds(env, owner, Provides(ibrahimEmail, agentEmail, w).trigger, judge, contextJudge)) ==>
              exists i :: 0 <= i < |sent| && sent[i].receiver == ibrahimEmail
    ensures TriggerHolds(env, owner, Hires(agentEmail, w).trigger, judge, contextJudge) ==>
              ReceivedFrom(owner.receivedEmails, env.agent.employee.email)
  {
    var sent := env.agent.employee.sentEmails;
    var needHire := NeedHire(ibrahimEmail, agentEmail, w).trigger;
    var pointsOn := Provides(ibrahimEmail, agentEmail, w).trigger;
    ConditionNarrows(sent, env.currentTurn, MailQuery(ibrahimEmail, needHire.mailCondition, None, None), judge);
    ConditionNarrows(sent, env.currentTurn, MailQuery(ibrahimEmail, pointsOn.mailCondition, None, None), judge);
  }
}
