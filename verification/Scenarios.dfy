/** Worked conversations: what the handler does with concrete message
    sequences, proved from the definitions alone. */
module Scenarios {
  import opened Wrappers
  import opened Text
  import opened Validators
  import opened Resume
  import opened Conversation
  import opened Dialogue

  /** Any greeting, then a name, an email accepted once stripped and an
      answer other than "yes", reach the open questions with the stripped
      name and email stored, no phone, and no generator call. */
  lemma OnboardingWithoutPhone(greeting: string, name: string, email: string, answer: string,
                               g: string -> Option<string>)
    requires IsValidEmail(Strip(email)) && Lower(Strip(answer)) != "yes"
    ensures var t := Run(Fresh, [Message(greeting, g), Message(name, g), Message(email, g), Message(answer, g)]);
      && t.replies == [AskName, ThankName(Strip(name)), AskPhoneOptIn, OpenQuestions]
      && t.last == Record(5, Strip(name), Strip(email), "", false, 0)
      && t.calls == 0
  {
    var m0, m1, m2, m3 := Message(greeting, g), Message(name, g), Message(email, g), Message(answer, g);
    var n, e := Strip(name), Strip(email);
    var r4 := Record(5, n, e, "", false, 0);
    assert Run(r4, []) == Trace(r4, [], 0);
    OptOutThen(Record(3, n, e, "", false, 0), answer, g, []);
    assert [m3] + [] == [m3];
    EmailAcceptedThen(Record(2, n, "", "", false, 0), email, g, [m3]);
    assert [m2] + [m3] == [m2, m3];
    NameThen(Record(1, "", "", "", false, 0), name, g, [m2, m3]);
    assert [m1] + [m2, m3] == [m1, m2, m3];
    GreetingThen(Fresh, greeting, g, [m1, m2, m3]);
    assert [m0] + [m1, m2, m3] == [m0, m1, m2, m3];
  }

  /** At step 0 any text is answered with the greeting and the step becomes 1. */
  lemma GreetingThen(r: Record, greeting: string, g: string -> Option<string>, rest: seq<Message>)
    requires r.step == 0
    ensures var t := Run(r.(step := 1), rest);
            Run(r, [Message(greeting, g)] + rest) == Trace(t.last, [AskName] + t.replies, t.calls)
  {
    assert Respond(r, Strip(greeting), g) == Turn(r.(step := 1), AskName, None);
    RunFirst(r, Message(greeting, g), rest);
  }

  /** At step 1 the stripped text is stored as the name. */
  lemma NameThen(r: Record, name: string, g: string -> Option<string>, rest: seq<Message>)
    requires r.step == 1
    ensures var n := Strip(name);
            var t := Run(r.(name := n, step := 2), rest);
            Run(r, [Message(name, g)] + rest) == Trace(t.last, [ThankName(n)] + t.replies, t.calls)
  {
    var n := Strip(name);
    assert Respond(r, n, g) == Turn(r.(name := n, step := 2), ThankName(n), None);
    RunFirst(r, Message(name, g), rest);
  }

  /** At step 3 an answer other than "yes", once stripped, opens the
      questions without a phone. */
  lemma OptOutThen(r: Record, answer: string, g: string -> Option<string>, rest: seq<Message>)
    requires r.step == 3 && Lower(Strip(answer)) != "yes"
    ensures var t := Run(r.(wantsPhone := false, step := 5), rest);
            Run(r, [Message(answer, g)] + rest) == Trace(t.last, [OpenQuestions] + t.replies, t.calls)
  {
    assert Respond(r, Strip(answer), g) == Turn(r.(wantsPhone := false, step := 5), OpenQuestions, None);
    RunFirst(r, Message(answer, g), rest);
  }

  /** At step 2 an email accepted once stripped is stored stripped, and the
      conversation goes on from step 3. */
  lemma EmailAcceptedThen(r: Record, email: string, g: string -> Option<string>, rest: seq<Message>)
    requires r.step == 2 && IsValidEmail(Strip(email))
    ensures var t := Run(r.(email := Strip(email), step := 3), rest);
            Run(r, [Message(email, g)] + rest) == Trace(t.last, [AskPhoneOptIn] + t.replies, t.calls)
  {
    var e := Strip(email);
    assert Respond(r, e, g) == Turn(r.(email := e, step := 3), AskPhoneOptIn, None);
    RunFirst(r, Message(email, g), rest);
  }

  /** "hi", "Jane", "jane@x.com", "no" on a new session. */
  lemma JaneOnboarding(g: string -> Option<string>)
    ensures var t := Run(Fresh, [Message("hi", g), Message("Jane", g), Message("jane@x.com", g), Message("no", g)]);
      && t.replies == [AskName, ThankName("Jane"), AskPhoneOptIn, OpenQuestions]
      && t.last == Record(5, "Jane", "jane@x.com", "", false, 0)
  {
    var email := "jane@x.com";
    assert IsValidEmail(email) by {
      assert email[5..][1] == '.';
      assert IsDomainShape(email[5..]);
      assert email[4] == '@' && Clean(email[..4]);
      EmailIff(email);
    }
    assert Strip("Jane") == "Jane" && Strip(email) == email && Strip("no") == "no";
    assert Lower(Strip("no")) != "yes" by { assert |Lower("no")| == 2; }
    OnboardingWithoutPhone("hi", "Jane", email, "no", g);
  }
}
