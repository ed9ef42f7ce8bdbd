/** One response of an agent's model: its tool uses and their results, and the output contract. */
module AgentTools {
  import opened Common
  import opened JsonValues
  import opened Schema
  import Retry

  datatype Stop = EndTurn | ToolUseStop | MaxTokens | PauseTurn | Refusal | ContextExceeded | OtherStop

  datatype Answer = TextAnswer(text: string) | Value(raw: string)

  datatype Block = Text(text: string) | ToolUse(id: string, name: string, input: Json) | ToolResult(id: string, isError: bool)

  type Use = b: Block | b.ToolUse? witness ToolUse("", "", Null)

  datatype Message = User(content: seq<Block>) | Assistant(content: seq<Block>)

  datatype Response = Response(content: seq<Block>, stop: Stop)

  /** What a tool run comes to, were it started, and whether the node is stopped before and after. */
  datatype ToolRun = ToolRun(stoppedBefore: bool, isError: bool, final: Option<Answer>, stoppedAfter: bool)

  /** `check` tells whether a known tool accepts an input. */
  datatype Config = Config(maxTurns: nat, retry: Retry.Policy, output: Option<Json>, messageChars: nat,
                           known: string -> bool, check: (string, Json) -> bool, parse: string -> Option<Json>)

  // ----- tool uses and their results -----

  function UseIds(content: seq<Block>): seq<string> {
    if content == [] then []
    else
      var last := content[|content| - 1];
      UseIds(content[..|content| - 1]) + if last.ToolUse? then [last.id] else []
  }

  /** The tool uses of a message, in order. */
  function Uses(content: seq<Block>): (uses: seq<Use>)
    ensures |uses| == |UseIds(content)| && forall j :: 0 <= j < |uses| ==> uses[j].id == UseIds(content)[j]
  {
    if content == [] then []
    else
      var last := content[|content| - 1];
      Uses(content[..|content| - 1]) + if last.ToolUse? then [last] else []
  }

  lemma {:induction false} UsesOfPrefix(content: seq<Block>, i: nat)
    requires i <= |content|
    ensures Uses(content[..i]) <= Uses(content)
    decreases |content| - i
  {
    if i < |content| {
      assert content[..i + 1][..i] == content[..i];
      UsesOfPrefix(content, i + 1);
    } else {
      assert content[..i] == content;
    }
  }

  /** The tool uses are the blocks at these places, all that use a tool, in order. */
  ghost predicate UsesAt(content: seq<Block>, uses: seq<Block>, places: seq<nat>) {
    && |places| == |uses| && (forall k, l :: 0 <= k < l < |places| ==> places[k] < places[l])
    && (forall k :: 0 <= k < |places| ==> places[k] < |content| && uses[k] == content[places[k]])
    && (forall i: nat :: i < |content| ==> (i in places <==> content[i].ToolUse?))
  }

  lemma {:induction false} UsesPlaces(content: seq<Block>) returns (places: seq<nat>)
    ensures UsesAt(content, Uses(content), places)
  {
    if content == [] {
      places := [];
    } else {
      var n: nat := |content| - 1;
      var before := UsesPlaces(content[..n]);
      places := if content[n].ToolUse? then before + [n] else before;
      UsesAtSnoc(content[..n], Uses(content[..n]), before, content[n]);
      assert content == content[..n] + [content[n]];
    }
  }

  lemma UsesAtSnoc(content: seq<Block>, uses: seq<Block>, places: seq<nat>, b: Block)
    requires UsesAt(content, uses, places)
    ensures b.ToolUse? ==> UsesAt(content + [b], uses + [b], places + [|content|])
    ensures !b.ToolUse? ==> UsesAt(content + [b], uses, places)
  {
    var all := content + [b];
    assert forall i: nat :: i < |content| ==> all[i] == content[i];
    if b.ToolUse? {
      var more := places + [|content|];
      assert more[|places|] == |content|;
      assert forall i: nat :: i in more <==> i in places || i == |content|;
    }
  }

  function ResultIds(content: seq<Block>): seq<string> {
    if content == [] then []
    else
      var last := content[|content| - 1];
      ResultIds(content[..|content| - 1]) + if last.ToolResult? then [last.id] else []
  }

  predicate Answers(assistant: Message, user: Message) {
    assistant.Assistant? && user.User? && ResultIds(user.content) == UseIds(assistant.content)
  }

  /**
   Every tool use is answered by exactly one result, in order, in the next message, and there is no other result.
   */
  predicate Paired(h: seq<Message>) {
    && (forall i :: 0 <= i < |h| && h[i].Assistant? && UseIds(h[i].content) != [] ==>
          i + 1 < |h| && Answers(h[i], h[i + 1]))
    && (forall i :: 0 <= i < |h| && h[i].User? && ResultIds(h[i].content) != [] ==> i > 0 && Answers(h[i - 1], h[i]))
  }

  function Texts(texts: seq<string>): (blocks: seq<Block>)
    ensures |blocks| == |texts|
  {
    if texts == [] then [] else Texts(texts[..|texts| - 1]) + [Text(texts[|texts| - 1])]
  }

  lemma {:induction false} TextsAre(texts: seq<string>)
    ensures forall i :: 0 <= i < |texts| ==> Texts(texts)[i] == Text(texts[i])
  {
    if texts != [] {
      TextsAre(texts[..|texts| - 1]);
    }
  }

  lemma {:induction false} ResultsOfTexts(content: seq<Block>, texts: seq<string>)
    ensures ResultIds(content + Texts(texts)) == ResultIds(content)
  {
    if texts == [] {
      assert content + [] == content;
    } else {
      var init := texts[..|texts| - 1];
      ResultsOfTexts(content, init);
      var all := content + Texts(texts);
      assert all[..|all| - 1] == content + Texts(init);
    }
  }

  lemma PairedPlainUser(h: seq<Message>, content: seq<Block>)
    requires Paired(h) && ResultIds(content) == []
    ensures Paired(h + [User(content)])
  {
    var next := h + [User(content)];
    assert forall i :: 0 <= i < |h| ==> next[i] == h[i];
  }

  lemma PairedQuietAssistant(h: seq<Message>, content: seq<Block>)
    requires Paired(h) && UseIds(content) == []
    ensures Paired(h + [Assistant(content)])
  {
    var next := h + [Assistant(content)];
    assert forall i :: 0 <= i < |h| ==> next[i] == h[i];
  }

  lemma PairedTurn(h: seq<Message>, uses: seq<Block>, results: seq<Block>)
    requires Paired(h) && ResultIds(results) == UseIds(uses)
    ensures Paired(h + [Assistant(uses)] + [User(results)])
  {
    var next := h + [Assistant(uses)] + [User(results)];
    assert forall i :: 0 <= i < |h| ==> next[i] == h[i];
  }

  // ----- invalid inputs -----

  /** A tool use whose input is not JSON, or not what a known tool accepts. */
  predicate IsInvalid(c: Config, bad: set<string>, b: Block) {
    b.ToolUse? && (b.id in bad || (c.known(b.name) && !c.check(b.name, b.input)))
  }

  function InvalidIds(c: Config, bad: set<string>, content: seq<Block>): set<string> {
    bad + set i | 0 <= i < |content| && IsInvalid(c, bad, content[i]) :: content[i].id
  }

  /** The input of every invalid tool use becomes an empty object; everything else stays. */
  ghost predicate IsCleaned(content: seq<Block>, invalid: set<string>, cleaned: seq<Block>) {
    && |cleaned| == |content|
    && forall i :: 0 <= i < |cleaned| ==>
         cleaned[i] == if content[i].ToolUse? && content[i].id in invalid then content[i].(input := Object(map[])) else content[i]
  }

  method Cleaned(content: seq<Block>, invalid: set<string>) returns (r: seq<Block>)
    ensures IsCleaned(content, invalid, r) && UseIds(r) == UseIds(content)
  {
    r := [];
    var i := 0;
    while i < |content|
      invariant 0 <= i <= |content| && |r| == i && UseIds(r) == UseIds(content[..i])
      invariant forall k :: 0 <= k < i ==>
                  r[k] == if content[k].ToolUse? && content[k].id in invalid then content[k].(input := Object(map[])) else content[k]
    {
      var b := content[i];
      assert content[..i + 1][..i] == content[..i];
      if b.ToolUse? && b.id in invalid {
        b := b.(input := Object(map[]));
      }
      assert (r + [b])[..i] == r;
      r := r + [b];
      i := i + 1;
    }
    assert content[..i] == content;
  }

  // ----- the output contract -----

  /** An answer that meets the contract: a JSON value that satisfies the schema and fits one message. */
  ghost predicate Meets(schema: Json, answer: Answer, parse: string -> Option<Json>, cap: nat) {
    answer.Value? && parse(answer.raw).Some? && Satisfies(schema, parse(answer.raw).value) && |answer.raw| <= cap
  }

  /** Checks a committed answer; with a checked schema this decides the contract. */
  method Accept(output: Option<Json>, answer: Answer, parse: string -> Option<Json>, cap: nat) returns (ok: bool)
    ensures output.None? ==> ok
    ensures output.Some? && ok ==> Meets(output.value, answer, parse, cap)
    ensures output.Some? && Checked(output.value) ==> (ok <==> Meets(output.value, answer, parse, cap))
  {
    hide Satisfies, Checked;
    if output.None? {
      return true;
    }
    if !answer.Value? || parse(answer.raw).None? {
      return false;
    }
    var valid := Validate(output.value, parse(answer.raw).value);
    ok := valid.Ok? && |answer.raw| <= cap;
  }

  ghost predicate Keeps(c: Config, answer: Answer) {
    c.output.Some? ==> Meets(c.output.value, answer, c.parse, c.messageChars)
  }

  // ----- the tools of one response -----

  /** The contract's schema was checked when the node was admitted. */
  predicate ContractChecked(c: Config) {
    c.output.Some? ==> Checked(c.output.value)
  }

  /** A tool that would run: the response asks for tools, the input is usable, and the node is not stopped. */
  ghost predicate MayRun(c: Config, run: ToolRun, use: Use, stop: Stop, invalid: set<string>) {
    stop == ToolUseStop && use.id !in invalid && !run.stoppedBefore && c.check(use.name, use.input)
  }

  /** A tool that would run and commit an accepted answer. */
  ghost predicate MayCommit(c: Config, run: ToolRun, use: Use, stop: Stop, invalid: set<string>) {
    MayRun(c, run, use, stop, invalid) && run.final.Some? && !run.stoppedAfter && Keeps(c, run.final.value)
  }

  ghost predicate NoneCommits(c: Config, tools: nat -> ToolRun, uses: seq<Use>, stop: Stop, invalid: set<string>, n: nat)
    requires n <= |uses|
  {
    forall j :: 0 <= j < n ==> !MayCommit(c, tools(j), uses[j], stop, invalid)
  }

  /** The tool use at `j` runs: it may, and no answer was committed before. */
  ghost predicate Runs(c: Config, tools: nat -> ToolRun, uses: seq<Use>, stop: Stop, invalid: set<string>, j: nat)
    requires j < |uses|
  {
    MayRun(c, tools(j), uses[j], stop, invalid) && NoneCommits(c, tools, uses, stop, invalid, j)
  }

  /** A tool went well: it ran without error, and an answer it gave was accepted. */
  ghost predicate Succeeds(c: Config, tools: nat -> ToolRun, uses: seq<Use>, stop: Stop, invalid: set<string>, j: nat)
    requires j < |uses|
  {
    && Runs(c, tools, uses, stop, invalid, j) && !tools(j).isError
    && (tools(j).final.Some? ==> MayCommit(c, tools(j), uses[j], stop, invalid))
  }

  /** The first committed answer among the first `n` tool uses is the final one. */
  ghost predicate IsFinal(c: Config, tools: nat -> ToolRun, uses: seq<Use>, stop: Stop, invalid: set<string>, n: nat,
                          final: Option<Answer>)
    requires n <= |uses|
  {
    if final.None? then NoneCommits(c, tools, uses, stop, invalid, n)
    else
      exists j :: 0 <= j < n && MayCommit(c, tools(j), uses[j], stop, invalid) && final == tools(j).final
                  && NoneCommits(c, tools, uses, stop, invalid, j)
  }

  /** The results of the first `n` tool uses. */
  ghost predicate AreResults(c: Config, tools: nat -> ToolRun, uses: seq<Use>, stop: Stop, invalid: set<string>, n: nat,
                             results: seq<Block>)
    requires n <= |uses|
  {
    && |results| == n
    && forall j :: 0 <= j < n ==>
         results[j] == ToolResult(uses[j].id, !Succeeds(c, tools, uses, stop, invalid, j))
  }

  /** One tool use, after the final answer so far. */
  method RunTool(c: Config, run: ToolRun, use: Use, stop: Stop, invalid: set<string>, final: Option<Answer>)
    returns (ran: bool, isError: bool, next: Option<Answer>)
    requires ContractChecked(c)
    ensures final.Some? ==> !ran && isError && next == final
    ensures final.None? ==>
              && (ran <==> MayRun(c, run, use, stop, invalid))
              && (!isError <==> ran && !run.isError && (run.final.Some? ==> MayCommit(c, run, use, stop, invalid)))
              && next == if MayCommit(c, run, use, stop, invalid) then run.final else None
  {
    hide Meets, Checked;
    ran, isError, next := false, true, final;
    if use.id in invalid || stop != ToolUseStop || final.Some? || run.stoppedBefore || !c.check(use.name, use.input) {
      return;
    }
    ran, isError := true, run.isError;
    if run.final.Some? {
      var ok := false;
      if !run.stoppedAfter {
        ok := Accept(c.output, run.final.value, c.parse, c.messageChars);
      }
      if ok {
        next := run.final;
      } else {
        isError := true;
      }
    }
  }

  lemma BlockSnoc(content: seq<Block>, i: nat)
    requires i < |content|
    ensures Uses(content[..i + 1]) == Uses(content[..i]) + if content[i].ToolUse? then [content[i]] else []
    ensures UseIds(content[..i + 1]) == UseIds(content[..i]) + if content[i].ToolUse? then [content[i].id] else []
  {
    assert content[..i + 1][..i] == content[..i];
  }

  lemma ResultSnoc(results: seq<Block>, id: string, isError: bool)
    ensures ResultIds(results + [ToolResult(id, isError)]) == ResultIds(results) + [id]
  {
    assert (results + [ToolResult(id, isError)])[..|results|] == results;
  }

  lemma NoTools(c: Config, tools: nat -> ToolRun, uses: seq<Use>, stop: Stop, invalid: set<string>)
    ensures AreResults(c, tools, uses, stop, invalid, 0, []) && IsFinal(c, tools, uses, stop, invalid, 0, None)
    ensures Uses([]) == [] && ResultIds([]) == UseIds([])
  {
  }

  /** One more tool use, after `final` decided the earlier ones. */
  lemma ToolStep(c: Config, tools: nat -> ToolRun, uses: seq<Use>, stop: Stop, invalid: set<string>, j: nat,
                 results: seq<Block>, final: Option<Answer>, started: bool, isError: bool, next: Option<Answer>)
    requires j < |uses| && AreResults(c, tools, uses, stop, invalid, j, results)
    requires IsFinal(c, tools, uses, stop, invalid, j, final) && (final.Some? ==> Keeps(c, final.value))
    requires final.Some? ==> !started && isError && next == final
    requires final.None? ==>
               && (started <==> MayRun(c, tools(j), uses[j], stop, invalid))
               && (!isError <==> started && !tools(j).isError
                                 && (tools(j).final.Some? ==> MayCommit(c, tools(j), uses[j], stop, invalid)))
               && next == if MayCommit(c, tools(j), uses[j], stop, invalid) then tools(j).final else None
    ensures AreResults(c, tools, uses, stop, invalid, j + 1, results + [ToolResult(uses[j].id, isError)])
    ensures IsFinal(c, tools, uses, stop, invalid, j + 1, next)
    ensures started <==> Runs(c, tools, uses, stop, invalid, j)
    ensures next.Some? ==> Keeps(c, next.value)
  {
    hide MayRun, Keeps;
    assert final.None? <==> NoneCommits(c, tools, uses, stop, invalid, j);
  }

  /**
   Answers every tool use of an assistant message, in order: a result for each, whether it ran or not, and the final
   answer if one was accepted.
   */
  method RunTools(c: Config, tools: nat -> ToolRun, content: seq<Block>, stop: Stop, invalid: set<string>)
    returns (results: seq<Block>, final: Option<Answer>, ran: set<nat>)
    requires ContractChecked(c)
    ensures ResultIds(results) == UseIds(content)
    ensures AreResults(c, tools, Uses(content), stop, invalid, |Uses(content)|, results)
    ensures IsFinal(c, tools, Uses(content), stop, invalid, |Uses(content)|, final)
    ensures forall j :: j in ran <==> 0 <= j < |Uses(content)| && Runs(c, tools, Uses(content), stop, invalid, j)
    ensures final.Some? ==> Keeps(c, final.value)
  {
    hide MayRun, Keeps, ContractChecked, AreResults, IsFinal, Runs, MayCommit, Uses, UseIds, ResultIds;
    results, final, ran := [], None, {};
    var i, j := 0, 0;
    ghost var uses := Uses(content);
    NoTools(c, tools, uses, stop, invalid);
    while i < |content|
      invariant 0 <= i <= |content| && j <= |uses| && Uses(content[..i]) == uses[..j]
      invariant ResultIds(results) == UseIds(content[..i])
      invariant AreResults(c, tools, uses, stop, invalid, j, results)
      invariant IsFinal(c, tools, uses, stop, invalid, j, final)
      invariant forall k :: k in ran <==> 0 <= k < j && Runs(c, tools, uses, stop, invalid, k)
      invariant final.Some? ==> Keeps(c, final.value)
    {
      var b := content[i];
      BlockSnoc(content, i);
      UsesOfPrefix(content, i + 1);
      i := i + 1;
      if b.ToolUse? {
        assert Uses(content[..i])[j] == b;
        var started, isError, next := RunTool(c, tools(j), b, stop, invalid, final);
        ResultSnoc(results, b.id, isError);
        ToolStep(c, tools, uses, stop, invalid, j, results, final, started, isError, next);
        results := results + [ToolResult(b.id, isError)];
        ran := if started then ran + {j} else ran;
        final := next;
        j := j + 1;
      }
    }
    assert content[..i] == content;
  }
}
