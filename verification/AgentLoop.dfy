/** One agent's loop: model calls, turns, and how a run ends. */
module AgentLoop {
  import opened Common
  import opened AgentTools
  import Retry

  datatype Status = Completed | MaxTurns | BudgetExhausted | Timeout | ContextExhausted | Cancelled | Refused | Failed

  /** Why a request came to nothing: no budget, a stopped node, a request too large, or another error. */
  datatype CallFailure = NoBudget | Interrupted | TooLarge | OtherFailure

  /**
   What the outside does in one round: whether the node is stopped at each check, what the tries at the request come
   to, which tool inputs are not JSON, what the tools do, and which messages are delivered. Any sequence of rounds is
   a possible run.
   */
  datatype Round = Round(stoppedFirst: bool, tries: nat -> Retry.Try<Response>, failure: CallFailure, badJson: set<string>,
                         tools: nat -> ToolRun, stoppedResults: bool, stoppedAfter: bool, timedOut: bool, delivered: seq<string>,
                         idle: Option<seq<string>>, stoppedIdle: bool)

  // ----- one round -----

  /** The text of a message, its text blocks one after another. */
  function TextOf(content: seq<Block>): string {
    if content == [] then ""
    else
      var last := content[|content| - 1];
      TextOf(content[..|content| - 1]) + if last.Text? then last.text else ""
  }

  /** Texts are put together in order; blocks that are no text do not count. */
  lemma TextSnoc(content: seq<Block>, b: Block)
    ensures TextOf(content + [b]) == if b.Text? then TextOf(content) + b.text else TextOf(content)
    ensures TextOf([]) == ""
  {
    assert (content + [b])[..|content|] == content;
  }

  const REMINDER: string := "submit the result"
  const NOT_SUBMITTED: string := "ended without calling submit_result"

  /**
   What one round came to: the response, whether it is asked for again, the turns taken so far, which tool inputs are
   unusable, the assistant's message, the results of its tools, an accepted answer, and the messages added.
   */
  datatype Entry = Entry(response: Option<Response>, again: bool, turns: nat, invalid: set<string>, content: seq<Block>,
                         results: seq<Block>, final: Option<Answer>, added: seq<Message>)

  /** The round makes a request. */
  ghost predicate Asks(c: Config, r: Round, before: nat) {
    !r.stoppedFirst && before < c.maxTurns
  }

  /** The round is a turn of the agent. */
  ghost predicate IsTurn(e: Entry) {
    e.response.Some? && !e.again
  }

  /** The turn neither committed an answer nor was stopped: its stop reason decides. */
  ghost predicate Undecided(r: Round, e: Entry) {
    IsTurn(e) && e.final.None? && !r.stoppedAfter
  }

  /** The model ended its turn with turns left. */
  ghost predicate Rests(c: Config, r: Round, e: Entry) {
    Undecided(r, e) && e.response.value.stop == EndTurn && e.turns < c.maxTurns
  }

  /** It rests with nothing to wait for, and the node is not stopped. */
  ghost predicate IsIdle(c: Config, r: Round, e: Entry) {
    Rests(c, r, e) && r.idle.None? && !r.stoppedIdle
  }

  ghost predicate Stops(r: Round, e: Entry, stop: Stop) {
    Undecided(r, e) && e.response.value.stop == stop
  }

  /** The loop goes on after this round. */
  ghost predicate GoesOn(c: Config, r: Round, e: Entry, reminded: bool) {
    || e.again
    || Stops(r, e, ToolUseStop) || Stops(r, e, PauseTurn) || Stops(r, e, MaxTokens)
    || (Rests(c, r, e) && r.idle.Some?)
    || (IsIdle(c, r, e) && c.output.Some? && !reminded)
  }

  /** The node is stopped before the request, during it, after the turn, or while it waits for messages. */
  ghost predicate IsStopped(c: Config, r: Round, e: Entry, before: nat) {
    || r.stoppedFirst
    || (Asks(c, r, before) && e.response.None? && r.failure == Interrupted)
    || (IsTurn(e) && e.final.None? && r.stoppedAfter)
    || (Rests(c, r, e) && r.idle.None? && r.stoppedIdle)
  }

  /** The request failed for this reason. */
  ghost predicate FailedBy(c: Config, r: Round, e: Entry, before: nat, failure: CallFailure) {
    Asks(c, r, before) && e.response.None? && r.failure == failure
  }

  /** An agent without a contract is done when it ends its turn with nothing to wait for, or on its last turn. */
  ghost predicate EndsWell(c: Config, r: Round, e: Entry) {
    c.output.None? && (IsIdle(c, r, e) || (Stops(r, e, EndTurn) && e.turns == c.maxTurns))
  }

  /** When the last round ends the loop with this status. */
  ghost predicate EndsAs(c: Config, r: Round, e: Entry, before: nat, reminded: bool, status: Status) {
    match status
    case Completed => (IsTurn(e) && e.final.Some?) || EndsWell(c, r, e)
    case MaxTurns =>
      (!r.stoppedFirst && before == c.maxTurns) || (c.output.Some? && Stops(r, e, EndTurn) && e.turns == c.maxTurns)
    case Timeout => IsStopped(c, r, e, before) && r.timedOut
    case Cancelled => IsStopped(c, r, e, before) && !r.timedOut
    case BudgetExhausted => FailedBy(c, r, e, before, NoBudget)
    case ContextExhausted => FailedBy(c, r, e, before, TooLarge) || Stops(r, e, ContextExceeded)
    case Refused => Stops(r, e, Refusal)
    case Failed =>
      || FailedBy(c, r, e, before, OtherFailure) || Stops(r, e, OtherStop)
      || (IsIdle(c, r, e) && c.output.Some? && reminded)
  }

  /** The text of the last turn that had any, or that ended. */
  ghost function Spoken(rounds: nat -> Round, log: seq<Entry>): Answer {
    if log == [] then TextAnswer("")
    else
      var n := |log| - 1;
      Said(rounds(n), log[n], Spoken(rounds, log[..n]))
  }

  /** What has been said after a round. */
  ghost function Said(r: Round, e: Entry, earlier: Answer): Answer {
    if IsTurn(e) && (TextOf(e.content) != "" || Stops(r, e, EndTurn)) then TextAnswer(TextOf(e.content)) else earlier
  }

  /** The answer of the outcome: the committed one, a complaint when the contract was never met, or the last text. */
  ghost predicate AnswersWith(c: Config, r: Round, e: Entry, reminded: bool, said: Answer, answer: Answer) {
    if IsTurn(e) && e.final.Some? then Some(answer) == e.final
    else if IsIdle(c, r, e) && c.output.Some? && reminded then
      answer == TextAnswer(NOT_SUBMITTED + if TextOf(e.content) == "" then "." else ". Last reply: " + TextOf(e.content))
    else answer == said
  }

  // ----- what a response becomes -----

  /** Inputs that are no JSON, and those that a known tool does not accept. */
  ghost predicate AreInvalid(c: Config, bad: set<string>, content: seq<Block>, invalid: set<string>) {
    forall id :: id in invalid <==>
      || id in bad
      || exists i :: 0 <= i < |content| && content[i].ToolUse? && content[i].id == id
                     && c.known(content[i].name) && !c.check(content[i].name, content[i].input)
  }

  /** Another request will carry what is delivered now. */
  ghost predicate Carries(c: Config, r: Round, e: Entry) {
    && e.final.None? && !r.stoppedResults && e.turns < c.maxTurns && e.response.Some?
    && e.response.value.stop in {ToolUseStop, PauseTurn, MaxTokens}
  }

  /** The message that holds the results of a turn, with what was delivered meanwhile when it will be sent. */
  ghost function Answering(c: Config, r: Round, e: Entry): seq<Message> {
    if e.results == [] then [] else [User(e.results + if Carries(c, r, e) then Texts(r.delivered) else [])]
  }

  /** What a turn adds for the next request when it ends without tool results. */
  ghost function Prompting(c: Config, r: Round, e: Entry, reminded: bool): seq<Message> {
    if Rests(c, r, e) && r.idle.Some? then [User(Texts(r.idle.value))]
    else if IsIdle(c, r, e) && c.output.Some? && !reminded then [User(Texts([REMINDER] + r.delivered))]
    else if Stops(r, e, MaxTokens) && e.results == [] then
      [User(Texts(["continue"] + if e.turns < c.maxTurns then r.delivered else []))]
    else []
  }

  datatype Outcome = Outcome(status: Status, answer: Answer, turns: nat)

  /** A round's entry in the log, after `before` turns. */
  ghost predicate IsRound(c: Config, r: Round, e: Entry, before: nat, retried: bool, reminded: bool) {
    && (Asks(c, r, before) ==> exists attempts :: Retry.IsResult(c.retry, r.tries, e.response, attempts))
    && (!Asks(c, r, before) ==> e.response.None?)
    && (e.response.Some? ==>
          && AreInvalid(c, r.badJson, e.response.value.content, e.invalid)
          && (e.again <==> e.invalid != {} && e.response.value.stop == MaxTokens && !retried))
    && (e.response.None? ==> !e.again)
    && e.turns == (if IsTurn(e) then before + 1 else before)
    && (IsTurn(e) ==> IsTurnOf(c, r, e, reminded))
    && (!IsTurn(e) ==> e.content == [] && e.results == [] && e.final.None? && e.added == [])
    && (e.response.None? ==> e.invalid == {})
  }

  ghost predicate IsTurnOf(c: Config, r: Round, e: Entry, reminded: bool)
    requires IsTurn(e)
  {
    var uses, stop := Uses(e.content), e.response.value.stop;
    && IsCleaned(e.response.value.content, e.invalid, e.content)
    && AreResults(c, r.tools, uses, stop, e.invalid, |uses|, e.results)
    && IsFinal(c, r.tools, uses, stop, e.invalid, |uses|, e.final)
    && e.added == [Assistant(e.content)] + Answering(c, r, e) + Prompting(c, r, e, reminded)
  }

  /** The messages of the rounds so far, after the first. */
  ghost function Added(log: seq<Entry>): seq<Message> {
    if log == [] then [] else Added(log[..|log| - 1]) + log[|log| - 1].added
  }

  function TurnsIn(log: seq<Entry>): nat {
    if log == [] then 0 else log[|log| - 1].turns
  }

  /** The last round asked for its response again. */
  predicate AsksAgain(log: seq<Entry>) {
    log != [] && log[|log| - 1].again
  }

  /** The contract's reminder has been given. */
  ghost predicate Reminded(c: Config, rounds: nat -> Round, log: seq<Entry>) {
    exists j :: 0 <= j < |log| && IsIdle(c, rounds(j), log[j]) && c.output.Some?
  }

  ghost predicate IsNext(c: Config, rounds: nat -> Round, log: seq<Entry>, e: Entry) {
    IsRound(c, rounds(|log|), e, TurnsIn(log), AsksAgain(log), Reminded(c, rounds, log))
  }

  /** Every round is what its inputs make of it, and goes on. */
  ghost predicate AllGoOn(c: Config, rounds: nat -> Round, log: seq<Entry>) {
    log != [] ==>
      var n := |log| - 1;
      && AllGoOn(c, rounds, log[..n]) && IsNext(c, rounds, log[..n], log[n])
      && GoesOn(c, rounds(n), log[n], Reminded(c, rounds, log[..n]))
  }

  /** A run: every round but the last goes on, and the last ends it with the outcome. */
  ghost predicate IsRun(c: Config, rounds: nat -> Round, log: seq<Entry>, outcome: Outcome) {
    && log != []
    && var n := |log| - 1;
    && var before, e, r := log[..n], log[n], rounds(n);
    && AllGoOn(c, rounds, before) && IsNext(c, rounds, before, e)
    && (forall status :: outcome.status == status <==> EndsAs(c, r, e, TurnsIn(before), Reminded(c, rounds, before), status))
    && AnswersWith(c, r, e, Reminded(c, rounds, before), Spoken(rounds, log), outcome.answer)
    && outcome.turns == e.turns
  }

  // ----- the loop -----

  lemma EndsOnce(c: Config, r: Round, e: Entry, before: nat, retried: bool, reminded: bool, a: Status, b: Status)
    requires IsRound(c, r, e, before, retried, reminded) && before <= c.maxTurns
    requires EndsAs(c, r, e, before, reminded, a) && EndsAs(c, r, e, before, reminded, b)
    ensures a == b
  {
    hide IsTurnOf, AreInvalid;
  }

  function Cancelling(round: Round): Status {
    if round.timedOut then Timeout else Cancelled
  }

  function StatusFor(round: Round): Status {
    match round.failure
    case NoBudget => BudgetExhausted
    case Interrupted => Cancelling(round)
    case TooLarge => ContextExhausted
    case OtherFailure => Failed
  }

  /** What a turn decides: the outcome, or that the loop goes on. */
  ghost predicate Decides(c: Config, r: Round, e: Entry, reminded: bool, said: Answer, end: Option<Outcome>) {
    if end.None? then GoesOn(c, r, e, reminded)
    else
      && e.turns > 0 && EndsAs(c, r, e, e.turns - 1, reminded, end.value.status)
      && AnswersWith(c, r, e, reminded, said, end.value.answer) && end.value.turns == e.turns
      && (end.value.status == Completed ==> Keeps(c, end.value.answer))
  }

  lemma NoResults(results: seq<Block>, content: seq<Block>)
    requires results == []
    ensures ResultIds(results) == []
  {
  }

  /** Adds an assistant message and, when it used tools, the message with their results. */
  method Record(history: seq<Message>, content: seq<Block>, results: seq<Block>, delivered: seq<string>)
    returns (next: seq<Message>)
    requires Paired(history) && ResultIds(results) == UseIds(content)
    ensures next == history + ([Assistant(content)] + if results == [] then [] else [User(results + Texts(delivered))])
    ensures Paired(next)
  {
    hide Paired, Texts;
    if results == [] {
      NoResults(results, content);
      PairedQuietAssistant(history, content);
      return history + [Assistant(content)];
    }
    ResultsOfTexts(results, delivered);
    PairedTurn(history, content, results + Texts(delivered));
    next := history + [Assistant(content)] + [User(results + Texts(delivered))];
  }

  /** Acts on the stop reason of a turn that neither committed an answer nor was stopped. */
  method Act(c: Config, r: Round, ghost e: Entry, stop: Stop, results: seq<Block>, text: string, turns: nat, reminded: bool,
             said: Answer, history: seq<Message>)
    returns (end: Option<Outcome>, next: seq<Message>, reminds: bool)
    requires Undecided(r, e) && e.response.value.stop == stop && e.results == results && TextOf(e.content) == text
    requires 0 < turns == e.turns <= c.maxTurns && Paired(history) && (stop == EndTurn ==> said == TextAnswer(text))
    ensures next == history + Prompting(c, r, e, reminded) && Paired(next)
    ensures reminds <==> IsIdle(c, r, e) && c.output.Some? && !reminded
    ensures Decides(c, r, e, reminded, said, end)
  {
    hide Keeps, Paired, Texts, TextOf;
    end, next, reminds := None, history, false;
    match stop {
      case ToolUseStop =>
      case PauseTurn =>
      case EndTurn =>
        if turns >= c.maxTurns {
          NoContract(c, said);
          return Some(Outcome(if c.output.Some? then MaxTurns else Completed, said, turns)), next, false;
        }
        if r.idle.Some? {
          next := AddTexts(history, r.idle.value);
        } else if r.stoppedIdle {
          end := Some(Outcome(Cancelling(r), said, turns));
        } else if c.output.None? {
          NoContract(c, said);
          end := Some(Outcome(Completed, said, turns));
        } else if !reminded {
          reminds := true;
          next := AddTexts(history, [REMINDER] + r.delivered);
        } else {
          end := Some(Outcome(Failed, TextAnswer(NOT_SUBMITTED + if text == "" then "." else ". Last reply: " + text), turns));
        }
      case MaxTokens =>
        if results == [] {
          next := AddTexts(history, ["continue"] + if turns < c.maxTurns then r.delivered else []);
        }
      case ContextExceeded =>
        end := Some(Outcome(ContextExhausted, said, turns));
      case Refusal =>
        end := Some(Outcome(Refused, said, turns));
      case OtherStop =>
        end := Some(Outcome(Failed, said, turns));
    }
  }

  /** The response becomes a message, and its tool uses are answered. */
  method Respond(c: Config, r: Round, response: Response, invalid: set<string>, turns: nat, history: seq<Message>)
    returns (content: seq<Block>, results: seq<Block>, final: Option<Answer>, next: seq<Message>, ghost draft: Entry)
    requires ContractChecked(c) && Paired(history)
    ensures draft == Entry(Some(response), false, turns, invalid, content, results, final, [])
    ensures IsCleaned(response.content, invalid, content) && (final.Some? ==> Keeps(c, final.value))
    ensures AreResults(c, r.tools, Uses(content), response.stop, invalid, |Uses(content)|, results)
    ensures IsFinal(c, r.tools, Uses(content), response.stop, invalid, |Uses(content)|, final)
    ensures next == history + ([Assistant(content)] + Answering(c, r, draft)) && Paired(next)
  {
    hide Keeps, Paired, Texts, AreResults, IsFinal, Uses, UseIds, ResultIds, ContractChecked, Answering, IsCleaned;
    var stop := response.stop;
    content := Cleaned(response.content, invalid);
    var ran;
    results, final, ran := RunTools(c, r.tools, content, stop, invalid);
    var continues := final.None? && !r.stoppedResults && turns < c.maxTurns
                     && (stop == ToolUseStop || stop == PauseTurn || stop == MaxTokens);
    next := Record(history, content, results, if continues then r.delivered else []);
    draft := Entry(Some(response), false, turns, invalid, content, results, final, []);
    AnsweringIs(c, r, draft, continues);
  }

  /** One turn: the response is recorded, its tools are answered, and its stop reason decides. */
  method Turn(c: Config, r: Round, response: Response, invalid: set<string>, turns: nat, reminded: bool, spoken: Answer,
              history: seq<Message>)
    returns (end: Option<Outcome>, next: seq<Message>, said: Answer, reminds: bool, ghost e: Entry)
    requires ContractChecked(c) && 0 < turns <= c.maxTurns && Paired(history)
    ensures e.response == Some(response) && !e.again && e.turns == turns && e.invalid == invalid
    ensures IsTurnOf(c, r, e, reminded)
    ensures next == history + e.added && Paired(next)
    ensures said == Said(r, e, spoken)
    ensures reminds <==> IsIdle(c, r, e) && c.output.Some? && !reminded
    ensures Decides(c, r, e, reminded, said, end)
  {
    hide Keeps, Paired, TextOf, AreResults, IsFinal, Uses, ContractChecked, Prompting, Answering, Said, Decides, IsIdle,
      Undecided, IsCleaned;
    var content, results, final, recorded, draft := Respond(c, r, response, invalid, turns, history);
    e := draft.(added := [Assistant(content)] + Answering(c, r, draft) + Prompting(c, r, draft, reminded));
    SameTurn(c, r, draft, e, reminded);
    var text := TextOf(content);
    said := if text != "" then TextAnswer(text) else spoken;
    end, next, reminds := None, recorded, false;
    if final.Some? {
      end := Some(Outcome(Completed, final.value, turns));
      Quiet(c, r, e, reminded, spoken);
      CommitEnds(c, r, e, reminded, said);
      return;
    }
    if r.stoppedAfter {
      end := Some(Outcome(Cancelling(r), said, turns));
      Quiet(c, r, e, reminded, spoken);
      StopEnds(c, r, e, reminded, said);
      return;
    }
    if response.stop == EndTurn {
      said := TextAnswer(text);
    }
    SaidIs(c, r, e, spoken);
    end, next, reminds := Act(c, r, e, response.stop, results, text, turns, reminded, said, recorded);
  }

  /** The messages of a turn do not bear on what they are. */
  lemma SameTurn(c: Config, r: Round, a: Entry, b: Entry, reminded: bool)
    requires b == a.(added := b.added)
    ensures Answering(c, r, a) == Answering(c, r, b) && Prompting(c, r, a, reminded) == Prompting(c, r, b, reminded)
  {
    hide Texts;
  }

  lemma AnsweringIs(c: Config, r: Round, e: Entry, continues: bool)
    requires continues <==> Carries(c, r, e)
    ensures Answering(c, r, e)
         == if e.results == [] then [] else [User(e.results + Texts(if continues then r.delivered else []))]
  {
    NoTexts(e.results);
  }

  /** A turn that committed an answer or was stopped prompts for nothing. */
  lemma Quiet(c: Config, r: Round, e: Entry, reminded: bool, spoken: Answer)
    requires IsTurn(e) && (e.final.Some? || r.stoppedAfter)
    ensures Prompting(c, r, e, reminded) == [] && !IsIdle(c, r, e)
    ensures Said(r, e, spoken) == if TextOf(e.content) != "" then TextAnswer(TextOf(e.content)) else spoken
  {
    hide Texts, TextOf;
  }

  lemma SaidIs(c: Config, r: Round, e: Entry, spoken: Answer)
    requires IsTurn(e) && e.final.None? && !r.stoppedAfter
    ensures Undecided(r, e)
    ensures Said(r, e, spoken)
         == if TextOf(e.content) != "" || e.response.value.stop == EndTurn then TextAnswer(TextOf(e.content)) else spoken
  {
    hide TextOf;
  }

  lemma NoTexts(results: seq<Block>)
    ensures Texts([]) == [] && results + [] == results
  {
  }

  lemma CommitEnds(c: Config, r: Round, e: Entry, reminded: bool, said: Answer)
    requires IsTurn(e) && e.final.Some? && e.turns > 0 && Keeps(c, e.final.value)
    ensures Decides(c, r, e, reminded, said, Some(Outcome(Completed, e.final.value, e.turns)))
  {
    hide Keeps;
  }

  lemma StopEnds(c: Config, r: Round, e: Entry, reminded: bool, said: Answer)
    requires IsTurn(e) && e.final.None? && r.stoppedAfter && e.turns > 0
    ensures Decides(c, r, e, reminded, said, Some(Outcome(Cancelling(r), said, e.turns)))
  {
    hide Keeps;
  }

  lemma LogSnoc(c: Config, rounds: nat -> Round, log: seq<Entry>, e: Entry)
    requires AllGoOn(c, rounds, log) && IsNext(c, rounds, log, e)
    ensures GoesOn(c, rounds(|log|), e, Reminded(c, rounds, log)) ==> AllGoOn(c, rounds, log + [e])
    ensures Added(log + [e]) == Added(log) + e.added
    ensures Spoken(rounds, log + [e]) == Said(rounds(|log|), e, Spoken(rounds, log))
    ensures TurnsIn(log + [e]) == e.turns && AsksAgain(log + [e]) == e.again
  {
    hide IsRound, GoesOn, Said;
    assert (log + [e])[..|log|] == log;
  }

  lemma RemindedSnoc(c: Config, rounds: nat -> Round, log: seq<Entry>, e: Entry)
    ensures Reminded(c, rounds, log + [e]) <==> Reminded(c, rounds, log) || (IsIdle(c, rounds(|log|), e) && c.output.Some?)
  {
    hide IsIdle;
    var all := log + [e];
    if Reminded(c, rounds, log) {
      var j :| 0 <= j < |log| && IsIdle(c, rounds(j), log[j]) && c.output.Some?;
      assert all[j] == log[j];
    }
    if IsIdle(c, rounds(|log|), e) && c.output.Some? {
      assert all[|log|] == e;
    }
  }

  /** The last round ends the run. */
  lemma RunEnds(c: Config, rounds: nat -> Round, log: seq<Entry>, e: Entry, outcome: Outcome)
    requires AllGoOn(c, rounds, log) && IsNext(c, rounds, log, e) && TurnsIn(log) <= c.maxTurns
    requires EndsAs(c, rounds(|log|), e, TurnsIn(log), Reminded(c, rounds, log), outcome.status)
    requires AnswersWith(c, rounds(|log|), e, Reminded(c, rounds, log), Said(rounds(|log|), e, Spoken(rounds, log)), outcome.answer)
    requires outcome.turns == e.turns
    ensures IsRun(c, rounds, log + [e], outcome)
  {
    hide EndsAs, AnswersWith, IsRound, Said, GoesOn, Reminded;
    LogSnoc(c, rounds, log, e);
    assert (log + [e])[..|log|] == log;
    forall status | EndsAs(c, rounds(|log|), e, TurnsIn(log), Reminded(c, rounds, log), status)
      ensures status == outcome.status
    {
      EndsOnce(c, rounds(|log|), e, TurnsIn(log), AsksAgain(log), Reminded(c, rounds, log), status, outcome.status);
    }
  }

  /** A round without a response ends the run with what was said so far. */
  lemma NoResponse(c: Config, r: Round, e: Entry, reminded: bool, said: Answer)
    requires e.response.None?
    ensures AnswersWith(c, r, e, reminded, said, said) && Said(r, e, said) == said
  {
  }

  /** A round that makes no request. */
  function Unasked(turns: nat): Entry {
    Entry(None, false, turns, {}, [], [], None, [])
  }

  lemma UnaskedEnds(c: Config, rounds: nat -> Round, log: seq<Entry>, status: Status)
    requires !Asks(c, rounds(|log|), TurnsIn(log)) && AllGoOn(c, rounds, log) && TurnsIn(log) <= c.maxTurns
    requires status == if rounds(|log|).stoppedFirst then Cancelling(rounds(|log|)) else MaxTurns
    ensures IsRun(c, rounds, log + [Unasked(TurnsIn(log))], Outcome(status, Spoken(rounds, log), TurnsIn(log)))
    ensures Added(log + [Unasked(TurnsIn(log))]) == Added(log)
  {
    hide Reminded, AllGoOn, IsRun, AnswersWith, Said, Spoken, Added;
    var e, r := Unasked(TurnsIn(log)), rounds(|log|);
    NoResponse(c, r, e, Reminded(c, rounds, log), Spoken(rounds, log));
    LogSnoc(c, rounds, log, e);
    RunEnds(c, rounds, log, e, Outcome(status, Spoken(rounds, log), TurnsIn(log)));
  }

  lemma FailureEnds(c: Config, rounds: nat -> Round, log: seq<Entry>, attempts: nat)
    requires Asks(c, rounds(|log|), TurnsIn(log)) && AllGoOn(c, rounds, log) && TurnsIn(log) <= c.maxTurns
    requires Retry.IsResult(c.retry, rounds(|log|).tries, None, attempts)
    ensures IsRun(c, rounds, log + [Unasked(TurnsIn(log))],
                  Outcome(StatusFor(rounds(|log|)), Spoken(rounds, log), TurnsIn(log)))
    ensures Added(log + [Unasked(TurnsIn(log))]) == Added(log)
  {
    hide Reminded, AllGoOn, IsRun, AnswersWith, Said, Spoken, Added, Retry.IsResult;
    var e, r := Unasked(TurnsIn(log)), rounds(|log|);
    NoResponse(c, r, e, Reminded(c, rounds, log), Spoken(rounds, log));
    LogSnoc(c, rounds, log, e);
    RunEnds(c, rounds, log, e, Outcome(StatusFor(r), Spoken(rounds, log), TurnsIn(log)));
  }

  /** A response that is asked for again. */
  function Discarded(response: Response, turns: nat, invalid: set<string>): Entry {
    Entry(Some(response), true, turns, invalid, [], [], None, [])
  }

  lemma DiscardedGoesOn(c: Config, rounds: nat -> Round, log: seq<Entry>, response: Response, invalid: set<string>, attempts: nat)
    requires Asks(c, rounds(|log|), TurnsIn(log)) && AllGoOn(c, rounds, log) && !AsksAgain(log)
    requires Retry.IsResult(c.retry, rounds(|log|).tries, Some(response), attempts)
    requires AreInvalid(c, rounds(|log|).badJson, response.content, invalid) && invalid != {} && response.stop == MaxTokens
    ensures var all := log + [Discarded(response, TurnsIn(log), invalid)];
            && AllGoOn(c, rounds, all) && Added(all) == Added(log) && Spoken(rounds, all) == Spoken(rounds, log)
            && TurnsIn(all) == TurnsIn(log) && AsksAgain(all) && (Reminded(c, rounds, all) <==> Reminded(c, rounds, log))
  {
    hide Reminded, AllGoOn, Spoken, Added, AreInvalid, Retry.IsResult;
    var e := Discarded(response, TurnsIn(log), invalid);
    RemindedSnoc(c, rounds, log, e);
    LogSnoc(c, rounds, log, e);
  }

  lemma TurnIsNext(c: Config, rounds: nat -> Round, log: seq<Entry>, e: Entry, attempts: nat)
    requires Asks(c, rounds(|log|), TurnsIn(log)) && IsTurn(e) && e.turns == TurnsIn(log) + 1
    requires Retry.IsResult(c.retry, rounds(|log|).tries, e.response, attempts)
    requires AreInvalid(c, rounds(|log|).badJson, e.response.value.content, e.invalid)
    requires e.invalid == {} || e.response.value.stop != MaxTokens || AsksAgain(log)
    requires IsTurnOf(c, rounds(|log|), e, Reminded(c, rounds, log))
    ensures IsNext(c, rounds, log, e)
  {
    hide Reminded, AreInvalid, Retry.IsResult, IsTurnOf;
  }

  lemma InvalidAre(c: Config, bad: set<string>, content: seq<Block>)
    ensures AreInvalid(c, bad, content, InvalidIds(c, bad, content))
  {
  }

  /**
   Runs the agent from its first message to its outcome, for every behaviour of model, tools, messages and
   cancellation. `calls` counts model calls, `attempts` the attempts they made, and `reminders` the reminders of the
   output contract; `log` is what the rounds came to.
   */
  method Agent(c: Config, rounds: nat -> Round, task: seq<string>)
    returns (outcome: Outcome, history: seq<Message>, calls: nat, attempts: nat, reminders: nat, ghost log: seq<Entry>)
    requires ContractChecked(c)
    ensures outcome.turns <= c.maxTurns
    ensures calls <= 2 * c.maxTurns
    ensures attempts <= 2 * c.maxTurns * (c.retry.maxRetries + 1)
    ensures Paired(history)
    ensures reminders <= 1
    ensures outcome.status == Completed ==> Keeps(c, outcome.answer)
    ensures IsRun(c, rounds, log, outcome)
    ensures history == [User(Texts(task))] + Added(log)
  {
    hide Keeps, Paired, InvalidIds, Texts, ContractChecked, AllGoOn, IsRun, Reminded, Spoken, Said, Added, IsTurnOf,
      AreInvalid, Decides, Retry.IsResult, IsNext, IsIdle;
    history, log := [User(Texts(task))], [];
    FirstMessage(task);
    NothingLogged(c, rounds);
    assert history + [] == history;
    calls, attempts, reminders := 0, 0, 0;
    ghost var perCall := c.retry.maxRetries + 1;
    var turns, answer, retried, reminded := 0, TextAnswer(""), false, false;
    var k := 0;
    while true
      invariant turns <= c.maxTurns && calls == k && Paired(history)
      invariant calls <= 2 * turns + (if retried then 1 else 0) && (retried ==> turns < c.maxTurns)
      invariant attempts <= calls * perCall
      invariant reminders == if reminded then 1 else 0
      invariant |log| == k && AllGoOn(c, rounds, log) && history == [User(Texts(task))] + Added(log)
      invariant turns == TurnsIn(log) && retried == AsksAgain(log) && reminded == Reminded(c, rounds, log)
      invariant answer == Spoken(rounds, log)
      decreases c.maxTurns - turns, if retried then 0 else 1
    {
      AttemptsFit(attempts, calls, c.maxTurns, perCall);
      var round := rounds(k);
      if round.stoppedFirst || turns >= c.maxTurns {
        outcome := Outcome(if round.stoppedFirst then Cancelling(round) else MaxTurns, answer, turns);
        UnaskedEnds(c, rounds, log, outcome.status);
        log := log + [Unasked(turns)];
        return;
      }
      var response, made := Retry.Attempts(c.retry, round.tries);
      k, calls, attempts := k + 1, calls + 1, attempts + made;
      assert calls * perCall == (calls - 1) * perCall + perCall;
      AttemptsFit(attempts, calls, c.maxTurns, perCall);
      if response.None? {
        outcome := Outcome(StatusFor(round), answer, turns);
        FailureEnds(c, rounds, log, made);
        log := log + [Unasked(turns)];
        return;
      }
      var invalid := InvalidIds(c, round.badJson, response.value.content);
      InvalidAre(c, round.badJson, response.value.content);
      if invalid != {} && response.value.stop == MaxTokens && !retried {
        retried := true;
        DiscardedGoesOn(c, rounds, log, response.value, invalid, made);
        log := log + [Discarded(response.value, turns, invalid)];
        continue;
      }
      turns := turns + 1;
      var end, next, said, reminds, e := Turn(c, round, response.value, invalid, turns, reminded, answer, history);
      TurnIsNext(c, rounds, log, e, made);
      TurnEnds(c, rounds, log, e, end);
      assert history + e.added == [User(Texts(task))] + (Added(log) + e.added);
      history, answer, log := next, said, log + [e];
      if end.Some? {
        return end.value, history, calls, attempts, reminders, log;
      }
      retried := false;
      if reminds {
        reminded, reminders := true, reminders + 1;
      }
    }
  }

  /** A turn ends the run or goes on, as it decides. */
  lemma TurnEnds(c: Config, rounds: nat -> Round, log: seq<Entry>, e: Entry, end: Option<Outcome>)
    requires AllGoOn(c, rounds, log) && IsNext(c, rounds, log, e) && IsTurn(e) && e.turns == TurnsIn(log) + 1 <= c.maxTurns
    requires Decides(c, rounds(|log|), e, Reminded(c, rounds, log), Said(rounds(|log|), e, Spoken(rounds, log)), end)
    ensures end.None? ==> AllGoOn(c, rounds, log + [e])
    ensures end.Some? ==> IsRun(c, rounds, log + [e], end.value) && end.value.turns == e.turns
    ensures end.Some? && end.value.status == Completed ==> Keeps(c, end.value.answer)
    ensures Added(log + [e]) == Added(log) + e.added
    ensures Spoken(rounds, log + [e]) == Said(rounds(|log|), e, Spoken(rounds, log))
    ensures TurnsIn(log + [e]) == e.turns && !AsksAgain(log + [e])
    ensures Reminded(c, rounds, log + [e])
            <==> Reminded(c, rounds, log) || (IsIdle(c, rounds(|log|), e) && c.output.Some?)
  {
    hide EndsAs, AnswersWith, GoesOn, Said, AllGoOn, IsNext, Keeps, Reminded, IsRun, Added, Spoken, IsIdle;
    LogSnoc(c, rounds, log, e);
    RemindedSnoc(c, rounds, log, e);
    if end.Some? {
      RunEnds(c, rounds, log, e, end.value);
    }
  }

  lemma NothingLogged(c: Config, rounds: nat -> Round)
    ensures AllGoOn(c, rounds, []) && Added([]) == [] && Spoken(rounds, []) == TextAnswer("") && !Reminded(c, rounds, [])
  {
  }

  // ----- what a run comes to -----

  /** An agent without a contract that ends its turn with nothing to wait for completes with that turn's text. */
  lemma IdleCompletes(c: Config, rounds: nat -> Round, log: seq<Entry>, outcome: Outcome)
    requires IsRun(c, rounds, log, outcome) && c.output.None? && IsIdle(c, rounds(|log| - 1), log[|log| - 1])
    ensures outcome == Outcome(Completed, TextAnswer(TextOf(log[|log| - 1].content)), log[|log| - 1].turns)
  {
    hide AllGoOn, IsNext, TextOf, Reminded;
    var n := |log| - 1;
    assert EndsAs(c, rounds(n), log[n], TurnsIn(log[..n]), Reminded(c, rounds, log[..n]), Completed);
  }

  lemma FinalIsUnique(c: Config, tools: nat -> ToolRun, uses: seq<Use>, stop: Stop, invalid: set<string>, n: nat,
                      a: Option<Answer>, b: Option<Answer>)
    requires n <= |uses| && IsFinal(c, tools, uses, stop, invalid, n, a) && IsFinal(c, tools, uses, stop, invalid, n, b)
    ensures a == b
  {
    hide MayCommit;
  }

  lemma TurnIsUnique(c: Config, r: Round, a: Entry, b: Entry, reminded: bool)
    requires IsTurn(a) && IsTurn(b) && IsTurnOf(c, r, a, reminded) && IsTurnOf(c, r, b, reminded)
    requires a.response == b.response && a.turns == b.turns && a.invalid == b.invalid
    ensures a == b
  {
    hide Texts, TextOf, MayCommit, Succeeds, Uses, IsFinal, Prompting, Answering;
    assert a.content == b.content;
    var uses, stop := Uses(a.content), a.response.value.stop;
    FinalIsUnique(c, r.tools, uses, stop, a.invalid, |uses|, a.final, b.final);
    assert a.results == b.results;
    SameTurn(c, r, a, a.(added := b.added), reminded);
  }

  lemma RoundIsUnique(c: Config, r: Round, a: Entry, b: Entry, before: nat, retried: bool, reminded: bool)
    requires IsRound(c, r, a, before, retried, reminded) && IsRound(c, r, b, before, retried, reminded)
    ensures a == b
  {
    hide IsTurnOf, Retry.IsResult;
    if Asks(c, r, before) {
      var m :| Retry.IsResult(c.retry, r.tries, a.response, m);
      var n :| Retry.IsResult(c.retry, r.tries, b.response, n);
      Retry.ResultIsUnique(c.retry, r.tries, a.response, m, b.response, n);
    }
    if a.response.Some? {
      assert a.invalid == b.invalid;
    }
    if IsTurn(a) {
      TurnIsUnique(c, r, a, b, reminded);
    }
  }

  lemma {:induction false} LogIsUnique(c: Config, rounds: nat -> Round, a: seq<Entry>, b: seq<Entry>)
    requires |a| <= |b| && AllGoOn(c, rounds, a) && AllGoOn(c, rounds, b)
    ensures a == b[..|a|]
    decreases |b|
  {
    hide IsRound, GoesOn, Reminded;
    if |a| < |b| {
      LogIsUnique(c, rounds, a, b[..|b| - 1]);
    } else if a != [] {
      var n := |a| - 1;
      LogIsUnique(c, rounds, a[..n], b[..n]);
      assert a[..n] == b[..n];
      RoundIsUnique(c, rounds(n), a[n], b[n], TurnsIn(a[..n]), AsksAgain(a[..n]), Reminded(c, rounds, a[..n]));
    }
  }

  lemma {:induction false} GoesOnAt(c: Config, rounds: nat -> Round, log: seq<Entry>, k: nat)
    requires AllGoOn(c, rounds, log) && k < |log|
    ensures AllGoOn(c, rounds, log[..k]) && IsNext(c, rounds, log[..k], log[k])
    ensures GoesOn(c, rounds(k), log[k], Reminded(c, rounds, log[..k]))
  {
    hide IsRound, GoesOn, Reminded;
    var n := |log| - 1;
    if k < n {
      GoesOnAt(c, rounds, log[..n], k);
      assert log[..n][..k] == log[..k];
    }
  }

  lemma EndingEnds(c: Config, r: Round, e: Entry, before: nat, retried: bool, reminded: bool, status: Status)
    requires IsRound(c, r, e, before, retried, reminded)
    requires EndsAs(c, r, e, before, reminded, status)
    ensures !GoesOn(c, r, e, reminded)
  {
    hide IsTurnOf, AreInvalid;
  }

  lemma RunIsNoPrefix(c: Config, rounds: nat -> Round, a: seq<Entry>, x: Outcome, b: seq<Entry>)
    requires IsRun(c, rounds, a, x) && AllGoOn(c, rounds, b)
    ensures |b| < |a|
  {
    hide IsRound, GoesOn, Reminded, EndsAs, AnswersWith, Spoken;
    if |a| <= |b| {
      var n := |a| - 1;
      GoesOnAt(c, rounds, b, n);
      LogIsUnique(c, rounds, a[..n], b[..n]);
      assert a[..n] == b[..n];
      RoundIsUnique(c, rounds(n), a[n], b[n], TurnsIn(a[..n]), AsksAgain(a[..n]), Reminded(c, rounds, a[..n]));
      assert EndsAs(c, rounds(n), a[n], TurnsIn(a[..n]), Reminded(c, rounds, a[..n]), x.status);
      EndingEnds(c, rounds(n), a[n], TurnsIn(a[..n]), AsksAgain(a[..n]), Reminded(c, rounds, a[..n]), x.status);
    }
  }

  /** What the outside does decides everything: every run from it has the same rounds and the same outcome. */
  lemma RunIsUnique(c: Config, rounds: nat -> Round, a: seq<Entry>, x: Outcome, b: seq<Entry>, y: Outcome)
    requires IsRun(c, rounds, a, x) && IsRun(c, rounds, b, y)
    ensures a == b && x == y
  {
    hide IsRound, GoesOn, Reminded, EndsAs, AllGoOn, Spoken;
    var n := |a| - 1;
    RunIsNoPrefix(c, rounds, a, x, b[..|b| - 1]);
    RunIsNoPrefix(c, rounds, b, y, a[..n]);
    LogIsUnique(c, rounds, a[..n], b[..n]);
    assert a[..n] == b[..n];
    RoundIsUnique(c, rounds(n), a[n], b[n], TurnsIn(a[..n]), AsksAgain(a[..n]), Reminded(c, rounds, a[..n]));
    assert a == a[..n] + [a[n]] && b == b[..n] + [b[n]];
    assert EndsAs(c, rounds(n), a[n], TurnsIn(a[..n]), Reminded(c, rounds, a[..n]), x.status);
  }

  method AddTexts(history: seq<Message>, texts: seq<string>) returns (next: seq<Message>)
    requires Paired(history)
    ensures next == history + [User(Texts(texts))] && Paired(next)
  {
    hide Paired;
    ResultsOfTexts([], texts);
    assert [] + Texts(texts) == Texts(texts);
    PairedPlainUser(history, Texts(texts));
    next := history + [User(Texts(texts))];
  }

  lemma FirstMessage(task: seq<string>)
    ensures Paired([User(Texts(task))])
  {
    ResultsOfTexts([], task);
    assert [] + Texts(task) == Texts(task);
    PairedPlainUser([], Texts(task));
    assert [] + [User(Texts(task))] == [User(Texts(task))];
  }

  lemma NoContract(c: Config, answer: Answer)
    ensures c.output.None? ==> Keeps(c, answer)
  {
  }

  lemma AttemptsFit(attempts: nat, calls: nat, maxTurns: nat, perCall: nat)
    requires attempts <= calls * perCall && calls <= 2 * maxTurns
    ensures attempts <= 2 * maxTurns * perCall
  {
    assert (2 * maxTurns - calls) * perCall >= 0;
    assert 2 * maxTurns * perCall == calls * perCall + (2 * maxTurns - calls) * perCall;
  }
}
