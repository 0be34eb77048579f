# workspace-for-agents, modelled in Dafny

workspace-for-agents simulates a small company so that an automated agent
can be evaluated in it. Employees have contacts, files, mail boxes, an
action history, written instructions and scripted reactions. The agent is
an employee with a fixed identity. An environment runs a task turn by turn:
- the agent acts until it waits or declares the task completed;
- every employee then executes its actions for the turn;
- the task's goals are scored, and a goal that reaches score 1 and
  triggers completion ends the run.

A scenario such as "send a mail to an NLP candidate" looks employees up,
gives them instructions and reactions, and returns the task with its goals.
Its goals and triggers are built from predicates that search mail lists
and action histories.

This project models that core and proves properties of it.

| file | module | what it holds |
|---|---|---|
| `wrappers.dfy` | `Wrappers` | `Option` and `Result` |
| `text.dfy` | `Text` | `str.join`, ASCII `str.lower`, the code-point order and stable `sorted` on strings, first-match search, newline counting |
| `actions.dfy` | `Actions`, `Mail` | commands (`Wait`, `SetTaskAsCompleted`, `SendEmail`, `Other`), executed actions, reaction triggers, the mail record |
| `file_system.dfy` | `FileSystem` | folders as values and as a class; `Folder.tree` rendering |
| `task.dfy` | `Tasks` | goals, exact scores, tasks and their description |
| `employee.dfy` | `Employees` | the `Employee` class, its contact map, its file listing |
| `agent.dfy` | `Agents` | the `Agent` class and its downloads folder |
| `scheduler.dfy` | `Scheduler` | `run_task` as functions over values |
| `environment.dfy` | `Environments` | the `Environment` class: lookups, logs, the turn loop proved against `Scheduler` |
| `generic_conditions.dfy` | `GenericConditions` | `mail_exists` and `mail_does_not_exists` |
| `send_mail_to_candidate.dfy` | `SendMailToCandidate` | the scenario's predicates and the wiring `setup_task` does |

Some inputs come from outside the core and are passed in as parameters:
- **What the agent chooses.** Each turn's `TurnScript` carries the agent's choice stream. Its precondition is that a `Wait` or `SetTaskAsCompleted` eventually comes, which bounds the agent's otherwise unbounded inner loop.
- **What each employee does.** `TurnScript` also carries each employee's action list for the turn.
- **How goal conditions evaluate.** `holds(k, c)` is the value of condition `c` at the `k`-th goal check.
- **Natural-language checks.** They are uninterpreted judges: `judge(prompt, mail)`, and `contextJudge(proposition, employee email)`.
- **The `LOG_ACTIONS` setting.** It is the boolean `logActions`.

The turn loop is written as recursion over the turn index (`Scheduler.RunFrom`). `Environment.RunTask` is proved to leave the environment in the state that recursion describes.

Behaviours of the code worth noting:
- **An employee completing the task does not stop the other employees.** The `break` at `environment.py:173` only leaves that employee's own action loop, so later employees still act in that turn. `Scheduler.StaffPhaseHistories` states this.
- **`run_task` returns nothing.** It prints each goal's score and resets the turn counter.
- **`Goal` gets a `triggersCompletion` flag, defaulting to false.** The Python `Goal` has no such field, but it is read at `environment.py:176` and passed at `send_mail_to_candidate.py:186`.
- **`Employee` gets a tag list, defaulting to empty.** The Python constructor has no tags parameter, but tags are read at `environment.py:62` and passed at `environment.py:200`.
- **`SendEmail` is `(sender, receiver, content)`, as `actions.py` declares it.** `setup_task` passes its arguments positionally. Its scripted mails therefore have the agent's address as sender and `"dynamic::"` (or the complaint's subject line) as receiver.

## Model

| member | source | states |
|---|---|---|
| Text.JoinLength | src/workspace_for_agents/employee.py:37 | a `join` is as long as its parts plus one separator between each two |
| Text.JoinStartsWithFirst | src/workspace_for_agents/employee.py:37 | a one-part `join` is that part; otherwise it starts with the first part followed by the separator |
| Text.JoinNewlines | src/workspace_for_agents/file_system.py:44 | joining with `"\n"` adds exactly one newline between each two parts |
| Text.Lower | src/workspace_for_agents/environment.py:63 | on ASCII letters: no capital A to Z remains, each becomes its small letter, every other character is kept in place (see Left out) |
| Text.LowerAll | src/workspace_for_agents/environment.py:63 | the lower-cased tag list has one entry per requested tag, each lower-cased |
| Text.LowerIdempotent | src/workspace_for_agents/environment.py:63 | lower-casing twice is lower-casing once |
| Text.LexLeqTotal | src/workspace_for_agents/file_system.py:30 | any two strings are comparable in the order `sorted` uses |
| Text.LexLeqTransitive | src/workspace_for_agents/file_system.py:30 | that order is transitive |
| Text.LexLeqAntisymmetric | src/workspace_for_agents/file_system.py:30 | that order is antisymmetric, so names sort to one arrangement |
| Text.Insert | src/workspace_for_agents/file_system.py:30 | an insertion step of the stable sort adds exactly the one element |
| Text.SortBy | src/workspace_for_agents/file_system.py:30 | `sorted(xs, key)` is a permutation of `xs` |
| Text.InsertSorted | src/workspace_for_agents/file_system.py:30 | inserting into a sorted list keeps it sorted |
| Text.SortBySorted | src/workspace_for_agents/file_system.py:30 | `sorted(xs, key)` is in ascending key order |
| Text.InsertStable | src/workspace_for_agents/file_system.py:37 | an insertion step places the element after every element of the same key |
| Text.SortByStable | src/workspace_for_agents/file_system.py:37 | `sorted` is stable: for every key, the elements with that key keep their order, so two subfolders of the same name render in insertion order |
| Text.FirstIndex | src/workspace_for_agents/environment.py:69-71 | the index a return-on-first-match loop finds: it matches and no earlier element does; none exactly when nothing matches |
| FileSystem.FileLines | src/workspace_for_agents/file_system.py:30-35 | one line per file |
| FileSystem.SubBlocks | src/workspace_for_agents/file_system.py:37-42 | one block per subfolder |
| FileSystem.TreeFirstLine | src/workspace_for_agents/file_system.py:28 | the tree starts with `indent + name + "/"`, followed by a newline when there is more; an empty folder is that line alone |
| FileSystem.TreeOrder | src/workspace_for_agents/file_system.py:28-42 | header, then the file lines, then the subfolder blocks. Files are in ascending name order, each `indent + connector + name`, with `└── ` only for the last file of a folder without subfolders. Subfolders are in ascending name order, the last indented by four spaces and the others by `│   ` |
| FileSystem.TreeLineCount | src/workspace_for_agents/file_system.py:26-44 | for names without newlines, the tree has 1 + files + the subfolders' line counts lines |
| FileSystem.Folder.constructor | src/workspace_for_agents/file_system.py:14-18 | a new folder has the given path and name and no files or subfolders |
| FileSystem.Folder.AddFile | src/workspace_for_agents/file_system.py:20-21 | appends the file at the end of `files`; nothing else changes |
| FileSystem.Folder.AddSubfolder | src/workspace_for_agents/file_system.py:23-24 | appends the folder at the end of `subfolders`; nothing else changes |
| Tasks.Score | src/workspace_for_agents/task.py:10-16 | a score is the number of true conditions over the number of conditions, so it lies in [0, 1]; an empty condition list is a division by zero |
| Tasks.PointsBound | src/workspace_for_agents/task.py:12-16 | at most every condition scores a point |
| Tasks.PointsFull | src/workspace_for_agents/task.py:13-16 | every condition scores its point exactly when all conditions hold |
| Tasks.ScoreOneIffAll | src/workspace_for_agents/task.py:11-16 | a goal scores 1 exactly when every condition holds |
| Tasks.PointsNone | src/workspace_for_agents/task.py:12-16 | with no true condition the score is 0 |
| Tasks.ComputeScore | src/workspace_for_agents/task.py:11-16 | the counting loop gives the score, evaluating every condition once, in list order |
| Tasks.Task.ToString | src/workspace_for_agents/task.py:41-42 | `str(task)` starts with `"Task " + id + ": "`, ends with the goal text, and is 7 characters longer than the two |
| Tasks.ColonAfterId | src/workspace_for_agents/task.py:41-42 | for an id without a colon, the first colon of the description is the one right after the id |
| Tasks.ToStringInjective | src/workspace_for_agents/task.py:41-42 | for ids without a colon, equal descriptions mean equal ids and equal goal texts |
| Employees.ContactBook.Add | src/workspace_for_agents/employee.py:39-45 | adding maps a new id to the contact, at the end of the insertion order; a mapped id keeps its contact and the order; the map stays well formed |
| Employees.ContactBook.Values | src/workspace_for_agents/employee.py:117-119 | the contacts come in insertion order, one per id |
| Employees.AddIdempotent | src/workspace_for_agents/employee.py:39-45 | adding the same contact twice gives the map of adding it once |
| Employees.AddValues | src/workspace_for_agents/employee.py:39-45 | a new contact goes at the end of `contacts`; adding a known id leaves `contacts` as it was |
| Employees.ListingLines | src/workspace_for_agents/employee.py:121-125 | for names without newlines, the listing holds one newline per line of each tree, each tree ending with one |
| Employees.Employee.constructor | src/workspace_for_agents/employee.py:14-32 | a new employee has the given identity and tags; empty contacts, facts, folders, files, actions, mail and instructions; and exactly the `do-nothing` reaction, which waits |
| Employees.Employee.FormattedInstructions | src/workspace_for_agents/employee.py:35-37 | exactly `"Instructions:\n"` without instructions; otherwise that heading, then the first instruction, with `"\n- "` between each two |
| Employees.Employee.Contacts | src/workspace_for_agents/employee.py:117-119 | the mapped employees in insertion order, one per id, every mapped one included |
| Employees.Employee.AddContact | src/workspace_for_agents/employee.py:39-45 | the contact map becomes the map with the contact added under its id unless that id is mapped; nothing else changes |
| Employees.Employee.ExecuteAction | src/workspace_for_agents/employee.py:112-115 | the action, marked with this employee as source, is appended to the history; earlier entries are untouched |
| Employees.Employee.ListAvailableFiles | src/workspace_for_agents/employee.py:121-125 | each folder's tree followed by a newline, concatenated in folder order |
| Agents.Agent.constructor | src/workspace_for_agents/agent.py:8-21 | a new agent has id -1, name `<agent>`, email `agent@company.com`, a fresh untouched employee part, an empty header, an empty context and no links |
| Agents.Agent.AddToDownloadFolder | src/workspace_for_agents/agent.py:30-50 | sets the link `agent_downloads/<name>/` to the item's path. The first `agent_downloads` folder gets the item as a subfolder, its files unchanged, and the folder list keeps its length. Without one, a new such folder holding just the item is appended. No other folder changes |
| Agents.Agent.ChooseAction | src/workspace_for_agents/agent.py:52-53 | the base agent chooses a command that ends its phase without completing the task |
| Scheduler.PhaseEnd | src/workspace_for_agents/environment.py:136-153 | the first command that ends the agent's phase |
| Scheduler.AgentPhase | src/workspace_for_agents/environment.py:136-153 | the agent executes a prefix of its choices, ending with the first `Wait` or `SetTaskAsCompleted`, so it executes at least one command per phase |
| Scheduler.UntilCompletion | src/workspace_for_agents/environment.py:158-173 | an employee executes its list up to and including its first `SetTaskAsCompleted`, or all of it |
| Scheduler.ActionLogs | src/workspace_for_agents/environment.py:139-147 | one log per executed command with logging on, none with it off |
| Scheduler.StaffPhase | src/workspace_for_agents/environment.py:156-173 | the employee phase changes only the employees' histories and the logs |
| Scheduler.CompletesAmongIff | src/workspace_for_agents/environment.py:171-173 | the employee phase signals completion exactly when some employee's list holds a `SetTaskAsCompleted` |
| Scheduler.GoalsMetAmongIff | src/workspace_for_agents/environment.py:175-177 | the goal check ends the task exactly when some goal that triggers completion scores 1 |
| Scheduler.PlayTurn | src/workspace_for_agents/environment.py:135-182 | a turn keeps one history per employee |
| Scheduler.RunTurns | src/workspace_for_agents/environment.py:134-182 | at most `max_turns` turns are played, all of them unless the task is completed; the counter rises by one per turn that did not end the run |
| Scheduler.AgentActsEveryTurn | src/workspace_for_agents/environment.py:136-153 | the agent's history only grows, by at least one action per played turn |
| Scheduler.AgentCompletionEndsTurn | src/workspace_for_agents/environment.py:152-155 | when the agent completes the task, the run ends, no employee acts and the counter does not advance |
| Scheduler.TurnEndsIff | src/workspace_for_agents/environment.py:152-180 | a turn ends the run exactly when the agent completes the task, an employee does, or a completion-triggering goal has all its conditions true |
| Scheduler.StaffPhaseHistories | src/workspace_for_agents/environment.py:156-173 | every employee, in list order, adds its executed commands to its own history; a `SetTaskAsCompleted` cuts only that employee's list; logs are only appended |
| Scheduler.StaffPhaseLogs | src/workspace_for_agents/environment.py:156-168 | the employee phase adds one action per executed command, and one log each when logging is on |
| Scheduler.RunLogs | src/workspace_for_agents/environment.py:139-168 | over a run, with logging on, there is exactly one log per executed action; with it off, the log is unchanged |
| Scheduler.EmployeeActsCounts | src/workspace_for_agents/environment.py:158-168 | one employee adds one action per command, and one log each when logging is on |
| Scheduler.StaffPhaseNoLogs | src/workspace_for_agents/environment.py:160-168 | with logging off, the employee phase writes no log |
| Scheduler.WaitingAgentPhase | src/workspace_for_agents/agent.py:52-53 | an agent whose first choice is `Wait` executes exactly that `Wait` in its phase |
| Scheduler.WaitingRun | src/workspace_for_agents/environment.py:134-182 | with an agent that always waits, no employee completing and no triggering goal reached, all `max_turns` turns are played, each adding exactly one `Wait` |
| Environments.TaggedMembers | src/workspace_for_agents/environment.py:59-66 | `get_employees_by_tag` returns only listed, tagged employees, each as often as it is listed |
| Environments.TaggedIff | src/workspace_for_agents/environment.py:59-66 | a listed employee is returned exactly when it has a requested tag, and only listed employees are; for distinct employees, nobody is returned twice |
| Environments.TaggedAppend | src/workspace_for_agents/environment.py:59-66 | the result keeps list order: the result for `a + b` is the result for `a` followed by that for `b` |
| Environments.TaggedSingle | src/workspace_for_agents/environment.py:59-66 | a one-employee list yields that employee exactly when it has a requested tag, and nothing otherwise |
| Environments.TaggedDistinct | src/workspace_for_agents/environment.py:59-66 | for distinct employees, no employee is returned twice |
| Environments.TaggedIgnoresCase | src/workspace_for_agents/environment.py:63 | requesting lower-cased tags finds the same employees |
| Environments.Environment.constructor | src/workspace_for_agents/environment.py:39-47 | a new environment holds the agent and employees, turn 0, the `<default>` state and no logs |
| Environments.Environment.AddLog | src/workspace_for_agents/environment.py:49-50 | appends exactly one log stamped with the current turn; nothing else changes |
| Environments.Environment.FeedFact | src/workspace_for_agents/environment.py:56-57 | appends the fact to the employee's known facts |
| Environments.Environment.GetEmployeesByTag | src/workspace_for_agents/environment.py:59-66 | the nested loops return the tagged employees |
| Environments.Environment.GetEmployeeByName | src/workspace_for_agents/environment.py:68-75 | the first employee with that name, or the `KeyError` message |
| Environments.Environment.GetEmployeeByEmail | src/workspace_for_agents/environment.py:77-86 | the agent for the agent's address, else the first employee with that address, else the `KeyError` message |
| Environments.Environment.RunAgentPhase | src/workspace_for_agents/environment.py:135-153 | the agent executes and logs its phase; the task stays ongoing unless the last command completes it |
| Environments.Environment.RunEmployee | src/workspace_for_agents/environment.py:157-173 | one employee executes and logs its list up to its first `SetTaskAsCompleted`, and reports whether it hit one |
| Environments.Environment.RunStaffPhase | src/workspace_for_agents/environment.py:156-173 | the employee loop leaves the state `StaffPhase` describes, and reports completion exactly when some employee completes |
| Environments.Environment.PlayOneTurn | src/workspace_for_agents/environment.py:135-182 | one turn of the loop leaves the state `PlayTurn` describes |
| Environments.Environment.PlayTurnsFrom | src/workspace_for_agents/environment.py:134-183 | the remaining turns leave the state `RunFrom` describes |
| Environments.Environment.RunTask | src/workspace_for_agents/environment.py:131-186 | sets the agent's header to the objective, plays the run `RunFrom` describes (histories and logs) for at most `maxTurns` turns, 100 by default, and resets the counter to 0 |
| Environments.CheckGoals | src/workspace_for_agents/environment.py:175-177 | the goal loop finds a completion-triggering goal with score 1 exactly when one exists |
| GenericConditions.SearchSent | src/workspace_for_agents/tasks/generic_conditions.py:17-36 | the search loop is true exactly when some sent mail is in the age window, is to the receiver, and either no condition is given or the judge accepts it |
| GenericConditions.MailExists | src/workspace_for_agents/tasks/generic_conditions.py:7-36 | `mail_exists` searches the sender's sent mails at the current turn; an employee receiver stands for its email |
| GenericConditions.ConditionNarrows | src/workspace_for_agents/tasks/generic_conditions.py:28-35 | without a condition, true exactly when an in-window mail to the receiver exists; a condition only narrows the result |
| GenericConditions.JudgedOnlyInWindow | src/workspace_for_agents/tasks/generic_conditions.py:18-35 | the judge is consulted only about in-window mails to the receiver |
| GenericConditions.FoundAppend | src/workspace_for_agents/tasks/generic_conditions.py:17-36 | an empty list finds nothing; one more sent mail keeps every earlier find |
| GenericConditions.MailDoesNotExist | src/workspace_for_agents/tasks/generic_conditions.py:39-48 | as written: the negation of `mail_exists` with `max_delta_turns` as the minimum age |
| GenericConditions.MailDoesNotExistWithin | src/workspace_for_agents/tasks/generic_conditions.py:39-48 | true exactly when no mail to the receiver that meets the condition was sent within the last `max_delta_turns` turns |
| GenericConditions.DeltaReadingsAgreeUnbounded | src/workspace_for_agents/tasks/generic_conditions.py:39-48 | without a bound, both readings of `max_delta_turns` agree |
| GenericConditions.DeltaAsOlderMissesRecentMail | src/workspace_for_agents/tasks/generic_conditions.py:44-47 | a mail sent this turn is missed under the written reading with a bound of 1, and found under the intended one |
| SendMailToCandidate.HasSentEmail | src/workspace_for_agents/tasks/send_mail_to_candidate.py:17-22 | true exactly when the history holds a mail sent from the actor's own address to the target |
| SendMailToCandidate.SentToAppend | src/workspace_for_agents/tasks/send_mail_to_candidate.py:17-22 | an empty history has sent nothing; one more action adds exactly what it sends |
| SendMailToCandidate.ReceivedMailFromAgent | src/workspace_for_agents/tasks/send_mail_to_candidate.py:33-37 | true exactly when some received mail comes from the agent |
| SendMailToCandidate.HasNotReceivedMail | src/workspace_for_agents/tasks/send_mail_to_candidate.py:25-30 | true exactly when the turn is past the bound and no received mail comes from the agent |
| SendMailToCandidate.AgentMailWasRecent | src/workspace_for_agents/tasks/send_mail_to_candidate.py:40-45 | the flag loop is true exactly when some mail from the agent is at distance 0 from the current turn |
| SendMailToCandidate.RecentMeansThisTurn | src/workspace_for_agents/tasks/send_mail_to_candidate.py:40-45 | a recent mail is one stamped with the current turn, so a recent mail implies a received one |
| SendMailToCandidate.Find | src/workspace_for_agents/tasks/send_mail_to_candidate.py:49-56 | a found employee is listed and has the name; none is found exactly when nobody has the name |
| SendMailToCandidate.StaffOf | src/workspace_for_agents/tasks/send_mail_to_candidate.py:49-56 | on success, each of the five looked-up employees is listed under its name |
| SendMailToCandidate.StaffOfFailsFirst | src/workspace_for_agents/tasks/send_mail_to_candidate.py:49-56 | the lookups fail exactly when some name is unknown, with the `KeyError` of the first unknown name in lookup order |
| SendMailToCandidate.ResolveStaff | src/workspace_for_agents/tasks/send_mail_to_candidate.py:49-56 | the imperative lookups give `StaffOf` |
| SendMailToCandidate.AgentContacts | src/workspace_for_agents/tasks/send_mail_to_candidate.py:51-56 | the agent's contact map has exactly keys 12, 13, 14, 15, for Chen, Léa, Ibrahim and Hermandes in that order |
| SendMailToCandidate.InstructEach | src/workspace_for_agents/tasks/send_mail_to_candidate.py:57-81 | every target that is not skipped gets the lines appended; nobody else changes |
| SendMailToCandidate.InstructTagged | src/workspace_for_agents/tasks/send_mail_to_candidate.py:57-81 | one tag loop appends the lines to every tagged, non-skipped employee and to nobody else |
| SendMailToCandidate.Instruct | src/workspace_for_agents/tasks/send_mail_to_candidate.py:57-85 | each employee gets its briefing appended: data lines (not Ibrahim), HR lines (not a Madeline), the technician line, and Ibrahim's own line |
| SendMailToCandidate.ReplyEach | src/workspace_for_agents/tasks/send_mail_to_candidate.py:142-158 | every employee that is neither Ibrahim nor Madeline by id gets the reply reaction |
| SendMailToCandidate.PlanReactions | src/workspace_for_agents/tasks/send_mail_to_candidate.py:86-177 | every employee ends with the reactions `Planned` gives it |
| SendMailToCandidate.NlpTask | src/workspace_for_agents/tasks/send_mail_to_candidate.py:178-195 | the task's id and objective; two single-condition goals, only `send-mail-to-tariq` triggering completion |
| SendMailToCandidate.Wire | src/workspace_for_agents/tasks/send_mail_to_candidate.py:51-177 | sets the agent's contacts, appends every briefing and installs every reaction |
| SendMailToCandidate.Setup | src/workspace_for_agents/tasks/send_mail_to_candidate.py:48-195 | for any wording: a missing name fails with its `KeyError` before anything changes; otherwise contacts, briefings and reactions are set and the task returned |
| SendMailToCandidate.SetupTask | src/workspace_for_agents/tasks/send_mail_to_candidate.py:48-195 | the same, with the scenario's own texts |
| SendMailToCandidate.NlpTaskEndsOnTariq | src/workspace_for_agents/tasks/send_mail_to_candidate.py:178-194 | the goal check ends the run exactly when the agent has mailed Tariq |
| SendMailToCandidate.ReplyPlanned | src/workspace_for_agents/tasks/send_mail_to_candidate.py:142-158 | others get a `reply` reaction worth 0 that stays after completion and waits for a mail from the agent this turn; their other reactions are kept |
| SendMailToCandidate.IbrahimPlanned | src/workspace_for_agents/tasks/send_mail_to_candidate.py:86-140 | `provides-madeline-email` needs only `send-mail-agent-need-hire`; the complaint needs nothing and scores -10; the answers score 1; Ibrahim gets no reply reaction |
| SendMailToCandidate.ReplyTriggerIff | src/workspace_for_agents/tasks/send_mail_to_candidate.py:142-158 | a reply fires exactly when the agent has sent that employee a mail stamped with this turn or later |
| SendMailToCandidate.HelpTriggerIff | src/workspace_for_agents/tasks/send_mail_to_candidate.py:121-123 | the complaint fires exactly from turn 3 on while the agent has never written to Ibrahim |
| SendMailToCandidate.AnswersNeedAgentMail | src/workspace_for_agents/tasks/send_mail_to_candidate.py:86-177 | Ibrahim's answers need a mail from the agent to him; Madeline's list needs a mail from the agent to her |

## Left out

- **What an action does.** `execute` is not part of this model. Executing an action only appends it to the actor's history, so mail boxes do not change during a run.
- **The per-turn choices.** `Employee.choose_action`, `choose_actions` and `semantic_is_true` call a language model. The agent's choices and each employee's action lists come from the turn scripts, and natural-language checks from the judges.
- **`HumanAgent`.** It reads the console.
- **`actions_descriptions` and `all_important_infos`.** They depend on descriptions and renderings that are not part of this model.
- **Side effects outside the state.** The model leaves out:
  - `save_logs` and the `LOGS` variable;
  - the final print of the scores;
  - the duplicate-contact warning;
  - JSON loading (`create_environnement_from_file`);
  - the relationship graph;
  - `add_files_from_folder`.
- **The `env` back-pointers of employees and the agent.** They are only used by `execute` and the judges.
- Environments.Environment.RunTask: requires distinct employees, none of them the agent, and so do the methods it calls. Python lists allow repeats; with repeats, a turn would update one object twice.
- Environments.Environment.RunTask: requires every goal to have a condition. `Goal.score` divides by zero on an empty list; `Tasks.Score` models that failure.
- **Scores are exact fractions.** Python computes them as floats.
- **Tasks.Task has no constructor member.** The datatype stores its four fields unchanged, and the datatype itself models the constructor.
- **`Email.id` and `Email.string` are left out.** The id is a hash; a judge receives the mail itself.
- **Mail boxes are two sequences, `sentEmails` and `receivedEmails`.** `EmailBox` declares only `emails`, while the code reads `sent_emails` and `received_emails`.
- SendMailToCandidate.ReplyTo: does not capture the reply text. That text is built by a lambda from the employee's context, and is modelled as `Generated` text for that employee.
- SendMailToCandidate.Hires: does not capture the attached file. `actions.py` declares no `attached_file`, so the reaction keeps only its mail.
- **`ConditionedAction` is not part of this model.** Its defaults are used where `setup_task` does not pass them: no prerequisites, and a reaction that does not stay after completion.
- SendMailToCandidate.TriggerHolds: reads `mail_does_not_exists` with its bound as a maximum age (see Findings). The complaint's trigger passes no bound, and for that call both readings agree (`GenericConditions.DeltaReadingsAgreeUnbounded`).
- **The scenario texts are held in `NlpWording`.** `SetupTask` uses them, and every other proof holds for any wording.
- Agents.Agent.AddToDownloadFolder: takes a folder only. Python also accepts a `File`, which it appends to the downloads folder's subfolders as well (the type test looks at the downloads folder), after which `tree()` of that folder fails; file items are not modelled.
- FileSystem.Folder.AddSubfolder: stores the subfolder as a value. Python stores the `Folder` object, so a file added to the child later shows in the parent's `tree()`; the model does not capture that aliasing (the same holds for `Agents.Agent.AddToDownloadFolder`).
- Text.Lower: lower-cases the ASCII letters A to Z only. Python's `str.lower` lowers every cased letter (a tag `RÉSEAU` matches `réseau` in Python, not here) and can change the length of a string (`İ`).
- Environments.Environment.RunTask: `logActions` stands for `os.environ["LOG_ACTIONS"] == "True"`; when that variable is unset Python raises a `KeyError` at the first executed action, which the model does not capture.
- **Reactions are kept in a map, not a Python dict.** The map does not record insertion order.

## Findings

| source | as written | input that shows it | evidently intended | confidence | as-written member | corrected member |
|---|---|---|---|---|---|---|
| src/workspace_for_agents/tasks/generic_conditions.py:46-48 | `mail_does_not_exists` passes `max_delta_turns` as the fifth positional argument, so it becomes `mail_older_than`, a minimum age | a mail to `ibrahim.mendoza@company.com` sent at turn 4, checked at turn 4 with `max_delta_turns=1`: no mail is reported, though one was sent within the last turn | the bound limits how old the mail may be (`mail_newer_than`) | not executed | GenericConditions.MailDoesNotExist, GenericConditions.DeltaAsOlderMissesRecentMail | GenericConditions.MailDoesNotExistWithin |
