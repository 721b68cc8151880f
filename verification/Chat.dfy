/** Conversation history: pruning to a size limit, and the loop that answers tool calls. */
module Chat {

  const DEFAULT_MAX_RESULT_CHARS: nat := 100000
  const DEFAULT_MAX_TOTAL_TOKENS: nat := 200000

  datatype Role = System | User | Assistant | Tool

  datatype ToolCall = ToolCall(id: string, name: string)

  /** Content is a string of bytes: its length is what the limit counts. */
  datatype Message = Message(role: Role, content: string, toolCallID: string, name: string, toolCalls: seq<ToolCall>)

  function Plain(role: Role, content: string): Message {
    Message(role, content, "", "", [])
  }

  type History = seq<Message>

  function Chars(h: History): nat {
    if h == [] then 0 else |h[0].content| + Chars(h[1..])
  }

  lemma {:induction false} CharsConcat(a: History, b: History)
    ensures Chars(a + b) == Chars(a) + Chars(b)
  {
    if a == [] {
      assert a + b == b;
    } else {
      CharsConcat(a[1..], b);
      assert (a + b)[1..] == a[1..] + b;
    }
  }

  /** The history with everything between the first message and the k-th gone. */
  function Cut(h: History, k: nat): History
    requires 1 <= k <= |h|
  {
    [h[0]] + h[k..]
  }

  /** A cut is enough if what is left fits, or only one message is left besides the first. */
  predicate Enough(h: History, maxChars: int, k: nat)
    requires 1 <= k < |h|
  {
    Chars(Cut(h, k)) <= maxChars || k == |h| - 1
  }

  /** The history is cut, and no smaller cut would have been enough. */
  ghost predicate LeastCut(h: History, maxChars: int, k: nat) {
    1 <= k < |h| && Enough(h, maxChars, k) && forall j :: 1 <= j < k ==> !Enough(h, maxChars, j)
  }

  /** The smallest cut from k on that is enough. */
  function LeastFrom(h: History, maxChars: int, k: nat): (r: nat)
    requires 1 <= k < |h|
    ensures k <= r < |h| && Enough(h, maxChars, r)
    ensures forall j :: k <= j < r ==> !Enough(h, maxChars, j)
    decreases |h| - k
  {
    if Enough(h, maxChars, k) then k else LeastFrom(h, maxChars, k + 1)
  }

  function Pruned(h: History, maxChars: int): History {
    if |h| < 2 then h else Cut(h, LeastFrom(h, maxChars, 1))
  }

  class Conversation {
    var history: History
    const maxTotalTokens: int

    constructor (prompt: string)
      ensures history == [Plain(System, prompt)] && maxTotalTokens == DEFAULT_MAX_TOTAL_TOKENS
    {
      history := [Plain(System, prompt)];
      maxTotalTokens := DEFAULT_MAX_TOTAL_TOKENS;
    }

    method UpdateSnapshot(notice: string)
      modifies this
      ensures history == old(history) + [Plain(System, notice)]
    {
      history := history + [Plain(System, notice)];
    }

    method ManageHistory()
      modifies this
      ensures history == Pruned(old(history), maxTotalTokens * 4)
    {
      ghost var h := history;
      assert |h| >= 1 ==> Cut(h, 1) == h;
      if |history| <= 2 { return; }
      var totalChars := 0;
      for i := 0 to |history|
        invariant history == h && totalChars == Chars(history[..i])
      {
        assert history[..i + 1] == history[..i] + [history[i]];
        CharsConcat(history[..i], [history[i]]);
        totalChars := totalChars + |history[i].content|;
      }
      assert history[..|history|] == history;
      var maxChars := maxTotalTokens * 4;
      if totalChars <= maxChars { return; }
      history := Prune(totalChars, maxChars);
    }

    /** Dropping from the front of the rest until it fits. */
    method Prune(total: int, maxChars: int) returns (r: History)
      requires |history| > 2 && total == Chars(history)
      ensures r == Pruned(history, maxChars)
    {
      var totalChars := total;
      var others := history[1..];
      ghost var k: nat := 1;
      assert Cut(history, 1) == history;
      while |others| > 1 && totalChars > maxChars
        invariant 1 <= k < |history| && others == history[k..]
        invariant totalChars == Chars(Cut(history, k))
        invariant LeastFrom(history, maxChars, 1) == LeastFrom(history, maxChars, k)
      {
        DropOne(history, k);
        totalChars := totalChars - |others[0].content|;
        others := others[1..];
        k := k + 1;
      }
      r := [history[0]] + others;
    }
  }

  lemma DropOne(h: History, k: nat)
    requires 1 <= k < |h|
    ensures Chars(Cut(h, k + 1)) == Chars(Cut(h, k)) - |h[k].content|
  {
    CharsConcat([h[0]], h[k..]);
    CharsConcat([h[0]], h[k + 1..]);
    assert h[k..][1..] == h[k + 1..];
  }

  /** Pruning makes the smallest cut that is enough, and there is only one. */
  lemma PrunedLeast(h: History, maxChars: int, k: nat)
    requires LeastCut(h, maxChars, k)
    ensures Pruned(h, maxChars) == Cut(h, k)
    ensures Chars(Cut(h, k)) <= maxChars || Cut(h, k) == [h[0], h[|h| - 1]]
  {
    var j := LeastFrom(h, maxChars, 1);
    assert Enough(h, maxChars, j) && Enough(h, maxChars, k);
    if k == |h| - 1 {
      assert h[k..] == [h[k]];
    }
  }

  /** Pruning again changes nothing. */
  lemma PrunedTwice(h: History, maxChars: int)
    ensures Pruned(Pruned(h, maxChars), maxChars) == Pruned(h, maxChars)
  {
    if |h| >= 2 {
      var c := Pruned(h, maxChars);
      assert Cut(c, 1) == c;
      assert Enough(c, maxChars, 1);
    }
  }

  // ---------------------------------------------------------------- tool calls and their results

  predicate IsResult(m: Message, tc: ToolCall) {
    m.role == Tool && m.toolCallID == tc.id && m.name == tc.name
  }

  /** Message i is followed by the results of all its tool calls, in order. */
  ghost predicate AnsweredAt(h: History, i: nat)
    requires i < |h|
  {
    i + |h[i].toolCalls| < |h| && forall j :: 0 <= j < |h[i].toolCalls| ==> IsResult(h[i + 1 + j], h[i].toolCalls[j])
  }

  ghost predicate Answered(h: History) {
    forall i :: 0 <= i < |h| ==> AnsweredAt(h, i)
  }

  /** A message is answered wherever it is followed by the same messages. */
  lemma AnsweredCopy(h: History, i: nat, r: History, k: nat)
    requires i < |h| && AnsweredAt(h, i) && k < |r| && r[k] == h[i]
    requires k + |h[i].toolCalls| < |r|
    requires forall d :: k < d <= k + |h[i].toolCalls| ==> r[d] == h[i + d - k]
    ensures AnsweredAt(r, k)
  {
    forall j | 0 <= j < |r[k].toolCalls| ensures IsResult(r[k + 1 + j], r[k].toolCalls[j]) {
      var d := k + 1 + j;
      assert r[d] == h[i + d - k];
      assert IsResult(h[i + 1 + j], h[i].toolCalls[j]);
    }
  }

  lemma CutAnswered(h: History, k: nat)
    requires Answered(h) && 1 <= k <= |h| && h[0].toolCalls == []
    ensures Answered(Cut(h, k))
  {
    var c := Cut(h, k);
    forall i | 0 <= i < |c| ensures AnsweredAt(c, i) {
      if i > 0 {
        assert AnsweredAt(h, k + i - 1);
        AnsweredCopy(h, k + i - 1, c, i);
      }
    }
  }

  lemma PlainAnswered(h: History, m: Message)
    requires Answered(h) && m.toolCalls == []
    ensures Answered(h + [m])
  {
    forall i | 0 <= i < |h + [m]| ensures AnsweredAt(h + [m], i) {
      if i < |h| {
        assert AnsweredAt(h, i);
        AnsweredCopy(h, i, h + [m], i);
      }
    }
  }

  /** A reply with its results after it is answered. */
  lemma ReplyAnswered(h: History, reply: Message, results: History)
    requires Answered(h) && |results| == |reply.toolCalls|
    requires forall j :: 0 <= j < |results| ==> IsResult(results[j], reply.toolCalls[j]) && results[j].toolCalls == []
    ensures Answered(h + [reply] + results)
  {
    var r := h + [reply] + results;
    forall i | 0 <= i < |r| ensures AnsweredAt(r, i) {
      if i < |h| {
        assert AnsweredAt(h, i);
        AnsweredCopy(h, i, r, i);
      } else if i > |h| {
        assert r[i] == results[i - |h| - 1];
      } else {
        forall j | 0 <= j < |results| ensures IsResult(r[i + 1 + j], reply.toolCalls[j]) {
          assert r[i + 1 + j] == results[j];
        }
      }
    }
  }

  // ---------------------------------------------------------------- the loop

  /**
   * What the model service does when called: it fails, or it replies and answers(i) is what the i-th tool asked for
   * returns.
   */
  datatype Outcome = Failure | Reply(m: Message, answers: nat -> string)

  function Result(m: Message, answers: nat -> string, i: nat): Message
    requires i < |m.toolCalls|
  {
    Message(Tool, answers(i), m.toolCalls[i].id, m.toolCalls[i].name, [])
  }

  function Results(m: Message, answers: nat -> string): History {
    seq(|m.toolCalls|, i requires 0 <= i < |m.toolCalls| => Result(m, answers, i))
  }

  /** The histories the service was called with, and the one that is left. */
  datatype Trace = Trace(sent: seq<History>, left: History)

  function Loop(h: History, outcomes: seq<Outcome>, maxChars: int): Trace
    decreases |outcomes|
  {
    if outcomes == [] then Trace([], h) else
      var p := Pruned(h, maxChars);
      match outcomes[0]
      case Failure => Trace([p], p)
      case Reply(m, answers) =>
        if m.toolCalls == [] then Trace([p], p + [m]) else
          var rest := Loop(p + [m] + Results(m, answers), outcomes[1..], maxChars);
          Trace([p] + rest.sent, rest.left)
  }

  /** streamingChatLoop, for at most as many calls of the service as outcomes are given. */
  method ChatLoop(conv: Conversation, outcomes: seq<Outcome>) returns (ghost sent: seq<History>)
    modifies conv
    ensures Trace(sent, conv.history) == Loop(old(conv.history), outcomes, conv.maxTotalTokens * 4)
  {
    hide Loop, Pruned, Results;
    sent := [];
    ghost var maxChars := conv.maxTotalTokens * 4;
    ghost var whole := Loop(conv.history, outcomes, maxChars);
    var n := 0;
    assert outcomes[0..] == outcomes;
    while n < |outcomes|
      invariant n <= |outcomes|
      invariant var rest := Loop(conv.history, outcomes[n..], maxChars); whole == Trace(sent + rest.sent, rest.left)
    {
      LoopUnfold(conv.history, outcomes, maxChars, n);
      conv.ManageHistory();
      sent := sent + [conv.history];
      if outcomes[n].Failure? { return; }
      var resp := outcomes[n].m;
      if |resp.toolCalls| == 0 {
        conv.history := conv.history + [resp];
        return;
      }
      AnswerCalls(conv, resp, outcomes[n].answers);
      n := n + 1;
    }
    LoopUnfold(conv.history, outcomes, maxChars, n);
  }

  lemma LoopUnfold(h: History, outcomes: seq<Outcome>, maxChars: int, n: nat)
    requires n <= |outcomes|
    ensures Loop(h, outcomes[n..], maxChars) ==
      if n == |outcomes| then Trace([], h) else
        var p := Pruned(h, maxChars);
        match outcomes[n]
        case Failure => Trace([p], p)
        case Reply(m, answers) =>
          if m.toolCalls == [] then Trace([p], p + [m]) else
            var rest := Loop(p + [m] + Results(m, answers), outcomes[n + 1..], maxChars);
            Trace([p] + rest.sent, rest.left)
  {
    hide Pruned, Results;
    if n < |outcomes| { assert outcomes[n..][1..] == outcomes[n + 1..]; }
  }

  /** The reply and then one result per tool call are appended. */
  method AnswerCalls(conv: Conversation, resp: Message, answers: nat -> string)
    modifies conv
    ensures conv.history == old(conv.history) + [resp] + Results(resp, answers)
  {
    ghost var h := conv.history;
    conv.history := conv.history + [resp];
    for i := 0 to |resp.toolCalls|
      invariant conv.history == h + [resp] + Results(resp, answers)[..i]
    {
      var tc := resp.toolCalls[i];
      conv.history := conv.history + [Message(Tool, answers(i), tc.id, tc.name, [])];
    }
  }

  /** After a reply the history holds it and, for each of its tool calls in order, what that tool returned. */
  ghost predicate Follows(before: History, o: Outcome, after: History) {
    && o.Reply? && |after| == |before| + 1 + |o.m.toolCalls| && before <= after && after[|before|] == o.m
    && forall i :: 0 <= i < |o.m.toolCalls| ==>
      after[|before| + 1 + i] == Message(Tool, o.answers(i), o.m.toolCalls[i].id, o.m.toolCalls[i].name, [])
  }

  /** The history sent n-th, and the outcome, lead to the history sent next, or else to the one that is left. */
  ghost predicate StepAt(t: Trace, outcomes: seq<Outcome>, maxChars: int, n: nat)
    requires n < |t.sent| <= |outcomes|
  {
    if n + 1 < |t.sent| then
      outcomes[n].Reply? && outcomes[n].m.toolCalls != [] &&
      exists after :: Follows(t.sent[n], outcomes[n], after) && t.sent[n + 1] == Pruned(after, maxChars)
    else if outcomes[n].Failure? then t.left == t.sent[n]
    else Follows(t.sent[n], outcomes[n], t.left) && (outcomes[n].m.toolCalls == [] || n + 1 == |outcomes|)
  }

  /**
   * The loop in steps: it ends with the first failure, which adds nothing, or the first reply without tool calls,
   * which is the last message left; after a reply with tool calls comes one result for each, with that tool's answer.
   */
  lemma {:induction false} LoopSteps(h: History, outcomes: seq<Outcome>, maxChars: int, n: nat)
    ensures var t := Loop(h, outcomes, maxChars);
      && |t.sent| <= |outcomes| && (outcomes == [] ==> t.left == h)
      && (outcomes != [] ==> |t.sent| > 0 && t.sent[0] == Pruned(h, maxChars))
      && (n < |t.sent| ==> StepAt(t, outcomes, maxChars, n))
    decreases |outcomes|
  {
    hide Results, Pruned, Follows, Loop;
    LoopUnfold(h, outcomes, maxChars, 0);
    assert outcomes[0..] == outcomes;
    if outcomes != [] && outcomes[0].Reply? {
      var p, m := Pruned(h, maxChars), outcomes[0].m;
      var after := p + [m] + Results(m, outcomes[0].answers);
      ReplyFollows(p, outcomes[0]);
      if m.toolCalls != [] {
        var k := if n > 0 then n - 1 else 0;
        var rest := Loop(after, outcomes[1..], maxChars);
        LoopSteps(after, outcomes[1..], maxChars, k);
        if n > 0 {
          if n <= |rest.sent| { StepLater(p, rest, outcomes, maxChars, k); }
        } else {
          StepFirst(p, after, rest, outcomes, maxChars);
        }
      }
    }
  }

  lemma StepFirst(p: History, after: History, rest: Trace, outcomes: seq<Outcome>, maxChars: int)
    requires outcomes != [] && Follows(p, outcomes[0], after) && outcomes[0].m.toolCalls != []
    requires |rest.sent| < |outcomes| && (outcomes[1..] == [] ==> rest.sent == [] && rest.left == after)
    requires outcomes[1..] != [] ==> |rest.sent| > 0 && rest.sent[0] == Pruned(after, maxChars)
    ensures StepAt(Trace([p] + rest.sent, rest.left), outcomes, maxChars, 0)
  {
    hide Pruned;
  }

  lemma StepLater(p: History, rest: Trace, outcomes: seq<Outcome>, maxChars: int, k: nat)
    requires k < |rest.sent| < |outcomes| && StepAt(rest, outcomes[1..], maxChars, k)
    ensures StepAt(Trace([p] + rest.sent, rest.left), outcomes, maxChars, k + 1)
  {
    hide Follows, Pruned;
  }

  lemma ReplyFollows(p: History, o: Outcome)
    requires o.Reply?
    ensures Follows(p, o, p + [o.m] + Results(o.m, o.answers))
    ensures o.m.toolCalls == [] ==> Follows(p, o, p + [o.m])
  {
  }

  /** What happens in a session between and around the loops. */
  datatype Op = Refresh(notice: string) | Say(context: seq<string>, text: string, outcomes: seq<Outcome>)

  function Session(h: History, ops: seq<Op>, maxChars: int): Trace
    decreases |ops|
  {
    if ops == [] then Trace([], h) else
      var t := match ops[0]
        case Refresh(notice) => Trace([], h + [Plain(System, notice)])
        case Say(context, text, outcomes) =>
          Loop(AddPlain(h, System, context) + [Plain(User, text)], outcomes, maxChars);
      var rest := Session(t.left, ops[1..], maxChars);
      Trace(t.sent + rest.sent, rest.left)
  }

  function AddPlain(h: History, role: Role, texts: seq<string>): (r: History)
    ensures |r| == |h| + |texts| && h <= r
    ensures forall i :: 0 <= i < |texts| ==> r[|h| + i] == Plain(role, texts[i])
    decreases |texts|
  {
    if texts == [] then h else AddPlain(h + [Plain(role, texts[0])], role, texts[1..])
  }

  /** Led by the prompt, with all tool calls answered. */
  ghost predicate Orderly(h: History, prompt: Message) {
    h != [] && h[0] == prompt && prompt.toolCalls == [] && Answered(h)
  }

  lemma PrunedOrderly(h: History, maxChars: int, prompt: Message)
    requires Orderly(h, prompt)
    ensures Orderly(Pruned(h, maxChars), prompt)
  {
    if |h| >= 2 { CutAnswered(h, LeastFrom(h, maxChars, 1)); }
  }

  /** Whatever is replied, every history the service is called with has its tool calls answered, and is pruned. */
  lemma {:induction false} LoopOrderly(h: History, outcomes: seq<Outcome>, maxChars: int, prompt: Message)
    requires Orderly(h, prompt)
    ensures var t := Loop(h, outcomes, maxChars); Orderly(t.left, prompt) && AllOrderly(t.sent, maxChars, prompt)
    decreases |outcomes|
  {
    if outcomes != [] {
      var p := Pruned(h, maxChars);
      PrunedOrderly(h, maxChars, prompt);
      PrunedTwice(h, maxChars);
      if outcomes[0].Reply? {
        var m := outcomes[0].m;
        var results := Results(m, outcomes[0].answers);
        ReplyAnswered(p, m, results);
        if m.toolCalls == [] {
          assert p + [m] == p + [m] + results;
        } else {
          LoopOrderly(p + [m] + results, outcomes[1..], maxChars, prompt);
        }
      }
    }
  }

  ghost predicate AllOrderly(sent: seq<History>, maxChars: int, prompt: Message) {
    forall i :: 0 <= i < |sent| ==> Orderly(sent[i], prompt) && Pruned(sent[i], maxChars) == sent[i]
  }

  /** The same over a whole session of questions and refreshed snapshots. */
  lemma {:induction false} SessionOrderly(h: History, ops: seq<Op>, maxChars: int, prompt: Message)
    requires Orderly(h, prompt)
    ensures var t := Session(h, ops, maxChars); Orderly(t.left, prompt) && AllOrderly(t.sent, maxChars, prompt)
    decreases |ops|
  {
    if ops != [] {
      match ops[0] {
        case Refresh(notice) =>
          PlainAnswered(h, Plain(System, notice));
          SessionOrderly(h + [Plain(System, notice)], ops[1..], maxChars, prompt);
        case Say(context, text, outcomes) =>
          AddPlainOrderly(h, System, context, prompt);
          var asked := AddPlain(h, System, context) + [Plain(User, text)];
          PlainAnswered(AddPlain(h, System, context), Plain(User, text));
          LoopOrderly(asked, outcomes, maxChars, prompt);
          SessionOrderly(Loop(asked, outcomes, maxChars).left, ops[1..], maxChars, prompt);
      }
    }
  }

  lemma {:induction false} AddPlainOrderly(h: History, role: Role, texts: seq<string>, prompt: Message)
    requires Orderly(h, prompt)
    ensures Orderly(AddPlain(h, role, texts), prompt)
    decreases |texts|
  {
    if texts != [] {
      PlainAnswered(h, Plain(role, texts[0]));
      AddPlainOrderly(h + [Plain(role, texts[0])], role, texts[1..], prompt);
    }
  }

  // ---------------------------------------------------------------- what is not kept

  /** Message q is among the results that follow the tool calls of message i. */
  predicate ResultOf(h: History, i: int, q: int) {
    0 <= i < |h| && i < q <= i + |h[i].toolCalls|
  }

  /** Every tool result stands after the call it answers. */
  ghost predicate NoOrphans(h: History) {
    forall q :: 0 <= q < |h| && h[q].role == Tool ==> exists i :: ResultOf(h, i, q)
  }

  /** Pruning can leave results without their call: exactly when the first message it keeps after the prompt is one. */
  lemma CutOrphansIff(h: History, k: nat)
    requires Answered(h) && NoOrphans(h) && h != [] && h[0].toolCalls == [] && h[0].role != Tool && 1 <= k < |h|
    ensures NoOrphans(Cut(h, k)) <==> h[k].role != Tool
  {
    var c := Cut(h, k);
    assert c[1] == h[k];
    if h[k].role == Tool {
      assert forall i :: !ResultOf(c, i, 1);
    } else {
      forall q | 0 <= q < |c| && c[q].role == Tool ensures exists i :: ResultOf(c, i, q) {
        assert c[q] == h[k + q - 1];
        var i :| ResultOf(h, i, k + q - 1);
        assert AnsweredAt(h, i);
        assert i < k ==> IsResult(h[i + 1 + (k - i - 1)], h[i].toolCalls[k - i - 1]);
        assert ResultOf(c, i - k + 1, q);
      }
    }
  }

  /** So pruning does, exactly when the rest fits from a tool result on and from no message before it. */
  lemma PrunedOrphansIff(h: History, maxChars: int, k: nat)
    requires Answered(h) && NoOrphans(h) && h != [] && h[0].toolCalls == [] && h[0].role != Tool
    requires LeastCut(h, maxChars, k)
    ensures NoOrphans(Pruned(h, maxChars)) <==> h[k].role != Tool
  {
    PrunedLeast(h, maxChars, k);
    CutOrphansIff(h, k);
  }

  /** A new conversation: the prompt, a question, a reply that calls tools, and their results. */
  function FirstRound(prompt: string, text: string, m: Message, answers: nat -> string): History {
    [Plain(System, prompt)] + [Plain(User, text)] + [m] + Results(m, answers)
  }

  /**
   * What the loop sends next in a new conversation, whatever the prompt, the question, the reply and the results, and
   * whatever comes after: it holds results whose call is gone exactly if prompt, reply and results together exceed the
   * limit.
   */
  lemma OrphansSentIff(prompt: string, text: string, m: Message, answers: nat -> string, rest: seq<Outcome>,
          maxChars: int)
    requires m.toolCalls != [] && m.role != Tool && rest != []
    ensures var t := Session([Plain(System, prompt)], [Say([], text, [Reply(m, answers)] + rest)], maxChars);
            |t.sent| >= 2 &&
            (!NoOrphans(t.sent[1]) <==> |prompt| + |m.content| + Chars(Results(m, answers)) > maxChars)
  {
    hide NoOrphans, Chars;
    SentNext(prompt, text, m, answers, rest, maxChars);
    FirstRoundPruned(prompt, text, m, answers, maxChars);
  }

  /** The second history sent. */
  lemma SentNext(prompt: string, text: string, m: Message, answers: nat -> string, rest: seq<Outcome>, maxChars: int)
    requires m.toolCalls != [] && rest != []
    ensures var t := Session([Plain(System, prompt)], [Say([], text, [Reply(m, answers)] + rest)], maxChars);
            |t.sent| >= 2 && t.sent[1] == Pruned(FirstRound(prompt, text, m, answers), maxChars)
  {
    var asked := [Plain(System, prompt)] + [Plain(User, text)];
    var outcomes := [Reply(m, answers)] + rest;
    assert LeastFrom(asked, maxChars, 1) == 1 && Cut(asked, 1) == asked;
    assert outcomes[1..] == rest;
    var next := Loop(FirstRound(prompt, text, m, answers), rest, maxChars).sent;
    assert next[0] == Pruned(FirstRound(prompt, text, m, answers), maxChars);
    assert Loop(asked, outcomes, maxChars).sent == [asked] + next;
    var ops := [Say([], text, outcomes)];
    assert ops[1..] == [] && AddPlain([Plain(System, prompt)], System, []) == [Plain(System, prompt)];
  }

  lemma FirstRoundPruned(prompt: string, text: string, m: Message, answers: nat -> string, maxChars: int)
    requires m.toolCalls != [] && m.role != Tool
    ensures !NoOrphans(Pruned(FirstRound(prompt, text, m, answers), maxChars)) <==>
        |prompt| + |m.content| + Chars(Results(m, answers)) > maxChars
  {
    hide Pruned, NoOrphans, Answered, Chars;
    var h := FirstRound(prompt, text, m, answers);
    FirstRoundOrderly(prompt, text, m, answers);
    FirstRoundChars(prompt, text, m, answers);
    var k := LeastFrom(h, maxChars, 1);
    assert LeastCut(h, maxChars, k);
    DropOne(h, 1);
    assert Enough(h, maxChars, 2) <==> Chars(Cut(h, 2)) <= maxChars;
    assert Enough(h, maxChars, 1) ==> Enough(h, maxChars, 2);
    assert k <= 2 <==> Enough(h, maxChars, 2);
    PrunedOrphansIff(h, maxChars, k);
  }

  lemma FirstRoundChars(prompt: string, text: string, m: Message, answers: nat -> string)
    requires m.toolCalls != []
    ensures var h := FirstRound(prompt, text, m, answers);
            |h| > 3 && Chars(Cut(h, 2)) == |prompt| + |m.content| + Chars(Results(m, answers))
  {
    var h, results := FirstRound(prompt, text, m, answers), Results(m, answers);
    assert Cut(h, 2) == [Plain(System, prompt)] + ([m] + results);
    CharsConcat([Plain(System, prompt)], [m] + results);
    CharsConcat([m], results);
  }

  lemma FirstRoundOrderly(prompt: string, text: string, m: Message, answers: nat -> string)
    requires m.role != Tool
    ensures var h := FirstRound(prompt, text, m, answers);
            Answered(h) && NoOrphans(h) && h[0].toolCalls == [] && |h| == 3 + |m.toolCalls| &&
            (forall i :: 0 <= i < |h| ==> (h[i].role == Tool <==> i >= 3))
  {
    var h := FirstRound(prompt, text, m, answers);
    ReplyAnswered([Plain(System, prompt)] + [Plain(User, text)], m, Results(m, answers));
    forall q | 0 <= q < |h| && h[q].role == Tool ensures exists i :: ResultOf(h, i, q) {
      assert ResultOf(h, 2, q);
    }
  }

  function TruncateString(s: string, max: nat): string {
    if |s| <= max then s else s[..max] + "\n... [TRUNCATED DUE TO CONTEXT LIMITS] ..."
  }

  /** A reply that asks for the summary nine times. */
  function NineSummaries(): Message {
    Message(Assistant, "", "", "", seq(9, i requires 0 <= i < 9 => ToolCall(["012345678"[i]], "summary")))
  }

  lemma {:induction false} CharsAtLeast(h: History, n: nat)
    requires forall i :: 0 <= i < |h| ==> |h[i].content| >= n
    ensures Chars(h) >= |h| * n
  {
    if h != [] { CharsAtLeast(h[1..], n); }
  }

  /** With the default limits nine long summaries are enough, whatever the prompt and the question. */
  lemma OrphansSent(prompt: string, text: string, summaries: nat -> string, rest: seq<Outcome>)
    requires (forall i :: |summaries(i)| >= DEFAULT_MAX_RESULT_CHARS) && rest != []
    ensures var answers := (i: nat) => TruncateString(summaries(i), DEFAULT_MAX_RESULT_CHARS);
            var outcomes := [Reply(NineSummaries(), answers)] + rest;
            var t := Session([Plain(System, prompt)], [Say([], text, outcomes)], DEFAULT_MAX_TOTAL_TOKENS * 4);
            |t.sent| >= 2 && !NoOrphans(t.sent[1])
  {
    hide NoOrphans, Session;
    var answers := (i: nat) => TruncateString(summaries(i), DEFAULT_MAX_RESULT_CHARS);
    CharsAtLeast(Results(NineSummaries(), answers), DEFAULT_MAX_RESULT_CHARS);
    OrphansSentIff(prompt, text, NineSummaries(), answers, rest, DEFAULT_MAX_TOTAL_TOKENS * 4);
  }

  /** The history with a message put in. */
  function Insert(h: History, p: nat, m: Message): History
    requires p <= |h|
  {
    h[..p] + [m] + h[p..]
  }

  /**
   * A notice appended by the user interface while a loop is answering breaks the order exactly if it comes between a
   * call and its last result.
   */
  lemma InsertBreaksIff(h: History, p: nat, m: Message)
    requires Answered(h) && p <= |h| && m.role != Tool && m.toolCalls == []
    ensures Answered(Insert(h, p, m)) <==> forall i :: !ResultOf(h, i, p)
  {
    var r := Insert(h, p, m);
    if i :| ResultOf(h, i, p) {
      var j := p - i - 1;
      assert r[i] == h[i] && r[i + 1 + j] == m;
      assert !IsResult(r[i + 1 + j], r[i].toolCalls[j]);
      assert !AnsweredAt(r, i);
    } else {
      forall i | 0 <= i < |r| ensures AnsweredAt(r, i) {
        InsertAnsweredAt(h, p, m, i);
      }
    }
  }

  lemma InsertAnsweredAt(h: History, p: nat, m: Message, i: nat)
    requires Answered(h) && p <= |h| && m.toolCalls == [] && i <= |h|
    requires forall i :: !ResultOf(h, i, p)
    ensures AnsweredAt(Insert(h, p, m), i)
  {
    var r := Insert(h, p, m);
    if i < p {
      assert AnsweredAt(h, i) && !ResultOf(h, i, p);
      AnsweredCopy(h, i, r, i);
    } else if i > p {
      assert AnsweredAt(h, i - 1) && r[i] == h[i - 1];
      AnsweredCopy(h, i - 1, r, i);
    }
  }
}
