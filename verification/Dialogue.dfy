/** Whole conversations: a sequence of messages handled one after another
    on one session record, and what holds of every such sequence. */
module Dialogue {
  import opened Wrappers
  import opened Text
  import opened Validators
  import opened Conversation

  /** A message as it reaches the handler, with the generator's behaviour for
      that request. */
  datatype Message = Message(text: string, generate: string -> Option<string>)

  /** The record after a conversation, the replies given and the number of
      generator calls made. */
  datatype Trace = Trace(last: Record, replies: seq<Reply>, calls: nat)

  /** A conversation: each message is stripped and handled in turn. */
  function Run(r: Record, messages: seq<Message>): (t: Trace)
    ensures |t.replies| == |messages|
    decreases |messages|
  {
    if messages == [] then Trace(r, [], 0)
    else
      var turn := Respond(r, Strip(messages[0].text), messages[0].generate);
      var rest := Run(turn.next, messages[1..]);
      Trace(rest.last, [turn.reply] + rest.replies, (if turn.asked.Some? then 1 else 0) + rest.calls)
  }

  /** Over any conversation the record stays valid, the step and the count
      never decrease, and the count grows by the number of generator calls. */
  lemma {:induction false} RunKeepsValid(r: Record, messages: seq<Message>)
    requires Valid(r)
    ensures var t := Run(r, messages);
      && Valid(t.last)
      && r.step <= t.last.step
      && r.geminiCount <= t.last.geminiCount
      && t.calls == t.last.geminiCount - r.geminiCount
    decreases |messages|
  {
    if messages != [] {
      var turn := Respond(r, Strip(messages[0].text), messages[0].generate);
      RespondKeepsValid(r, Strip(messages[0].text), messages[0].generate);
      RunKeepsValid(turn.next, messages[1..]);
    }
  }

  /** A session calls the generator at most twice in its whole life. */
  lemma AtMostTwoCalls(messages: seq<Message>)
    ensures Run(Fresh, messages).calls <= QuotaCap
  {
    RunKeepsValid(Fresh, messages);
  }

  /** Once the quota is spent at step 5, nothing changes any more: every
      message is answered by the router or with the quota reply, and the
      generator is never called. */
  lemma {:induction false} SpentQuotaIsFinal(r: Record, messages: seq<Message>)
    requires r.step == 5 && r.geminiCount == QuotaCap
    ensures var t := Run(r, messages);
      && t.last == r
      && t.calls == 0
      && forall i :: 0 <= i < |t.replies| ==> t.replies[i].Answer? || t.replies[i] == QuotaSpent
    decreases |messages|
  {
    if messages != [] {
      var text := Strip(messages[0].text);
      QuestionStep(r, text, messages[0].generate);
      assert Respond(r, text, messages[0].generate).next == r;
      SpentQuotaIsFinal(r, messages[1..]);
    }
  }

  /** A conversation is its first turn followed by the rest. */
  lemma RunFirst(r: Record, m: Message, rest: seq<Message>)
    ensures var turn := Respond(r, Strip(m.text), m.generate);
            var t := Run(turn.next, rest);
            Run(r, [m] + rest)
              == Trace(t.last, [turn.reply] + t.replies, (if turn.asked.Some? then 1 else 0) + t.calls)
  {
    assert ([m] + rest)[1..] == rest;
  }
}
