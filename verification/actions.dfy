/** Actions an actor can execute, mail records, and the scripted reactions
    ("conditioned actions") stored in an employee's preplanned actions.
    What an action does when executed is not modelled: only its kind, its
    arguments and the actor it was executed by. */
module Actions {
  import opened Wrappers

  /** The body of a mail to send: a literal text, or text generated at send
      time from the context of the employee with address `contextOf`. */
  datatype Body = Literal(text: string) | Generated(contextOf: string)

  /** The kinds of action the scheduler tells apart. `SendEmail` carries the
      three fields of the action class (sender, receiver, content); every
      other kind (reading mail, listing files, ...) is `Other`. */
  datatype Command =
    | Wait
    | SetTaskAsCompleted
    | SendEmail(sender: string, receiver: string, content: Body)
    | Other(name: string)

  /** An executed action: the command and the actor (by id) that executed it. */
  datatype Action = Action(command: Command, source: Option<int>)

  /** A command after which the agent stops choosing actions for this turn. */
  predicate EndsAgentPhase(c: Command)
  {
    c.Wait? || c.SetTaskAsCompleted?
  }

  /** The class name recorded in an "action" log. */
  function ActionName(c: Command): string
  {
    match c
    case Wait => "Wait"
    case SetTaskAsCompleted => "SetTaskAsCompleted"
    case SendEmail(_, _, _) => "SendEmail"
    case Other(name) => name
  }

  /** The condition a scripted reaction waits for, described by what it
      tests (the scenario builds these as closures). */
  datatype Trigger =
      /** a mail from the agent to `receiver`, optionally judged against
          `mailCondition`, at most `newerThan` turns old when given */
    | AgentMailTo(receiver: string, mailCondition: Option<string>, newerThan: Option<int>)
      /** the turn is at least `fromTurn` and no mail from the agent to `receiver` exists */
    | LateAndNoAgentMailTo(fromTurn: int, receiver: string)
      /** the employee holding the reaction received a mail from the agent,
          and the judge accepts `proposition` against that employee's context */
    | AgentMailReceivedAndJudged(proposition: string)

  /** An entry of `preplanned_actions`: a plain action, or a conditioned
      action with its score, its prerequisites (the keys of the entries that
      must have fired before it) and whether it stays available once fired. */
  datatype Reaction =
    | Plain(action: Command)
    | Conditioned(trigger: Trigger, action: Command, score: int, prerequisites: seq<string>,
                  staysAfterCompletion: bool)
}

/** Mail records. */
module Mail {

  /** One mail, stamped with the turn it was sent in. */
  datatype Email = Email(sender: string, receiver: string, object: string, content: string, turn: int)

}
