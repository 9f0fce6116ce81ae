/** The session records and the store that maps session ids to them, both
    updated in place by the chat handler. */
module Sessions {
  import opened Wrappers
  import opened Text
  import opened Validators
  import opened Resume
  import Conversation

  /** One visitor's session: the fields of the record the handler mutates. */
  class Session {
    var step: int
    var name: string
    var email: string
    var phone: string
    var wantsPhone: bool
    var geminiCount: int

    /** The record these fields hold. */
    function Value(): Conversation.Record
      reads this
    {
      Conversation.Record(step, name, email, phone, wantsPhone, geminiCount)
    }

    /** A session as the handler first creates it. */
    constructor ()
      ensures Value() == Conversation.Fresh
    {
      step, name, email, phone, wantsPhone, geminiCount := 0, "", "", "", false, 0;
    }

    /** One message, already stripped, on this session: the reply text and
        the new field values are those of `Conversation.Respond`. */
    method Handle(text: string, generate: string -> Option<string>) returns (reply: string)
      modifies this
      ensures var t := Conversation.Respond(old(Value()), text, generate);
              Value() == t.next && reply == Conversation.ReplyText(t.reply)
    {
      var answer: Conversation.Reply;
      if step < 5 {
        answer := Onboard(text);
      } else {
        answer := AnswerQuestion(text, generate);
      }
      reply := Conversation.ReplyText(answer);
    }

    /** Steps 0 to 4: greeting, name, email, phone opt-in, phone. A rejected
        email or phone leaves every field as it was. */
    method Onboard(text: string) returns (answer: Conversation.Reply)
      requires step < 5
      modifies this
      ensures forall g: string -> Option<string> ::
                var t := Conversation.Respond(old(Value()), text, g);
                Value() == t.next && answer == t.reply
    {
      if step == 0 {
        step := 1;
        answer := Conversation.AskName;
      } else if step == 1 {
        name := text;
        step := 2;
        answer := Conversation.ThankName(text);
      } else if step == 2 {
        if IsValidEmail(text) {
          email := text;
          step := 3;
          answer := Conversation.AskPhoneOptIn;
        } else {
          answer := Conversation.InvalidEmail;
        }
      } else if step == 3 {
        if Lower(text) == "yes" {
          wantsPhone := true;
          step := 4;
          answer := Conversation.AskPhone;
        } else {
          wantsPhone := false;
          step := 5;
          answer := Conversation.OpenQuestions;
        }
      } else if step == 4 {
        if IsValidPhone(text) {
          phone := text;
          step := 5;
          answer := Conversation.PhoneSaved;
        } else {
          answer := Conversation.InvalidPhone;
        }
      } else {
        answer := Conversation.NotUnderstood;
      }
    }

    /** From step 5 on: a keyword answer, or else one generator call while
        the quota lasts; the count goes up before the call, so a failed call
        uses quota too. */
    method AnswerQuestion(text: string, generate: string -> Option<string>) returns (answer: Conversation.Reply)
      requires step >= 5
      modifies this
      ensures var t := Conversation.Respond(old(Value()), text, generate);
              Value() == t.next && answer == t.reply
    {
      var topic := Route(text);
      if topic.Some? {
        answer := Conversation.Answer(topic.value);
      } else if geminiCount >= Conversation.QuotaCap {
        answer := Conversation.QuotaSpent;
      } else {
        geminiCount := geminiCount + 1;
        var generated := generate(Conversation.Prompt(text));
        if generated.Some? {
          answer := Conversation.Generated(Strip(generated.value));
        } else {
          answer := Conversation.GenerationFailed;
        }
      }
    }
  }

  /** `user_sessions`: session id to session, one session per id. */
  class Store {
    var sessions: map<string, Session>

    /** Every record is within the step and quota bounds, and no two ids
        share a session. */
    ghost predicate Valid()
      reads this, sessions.Values
    {
      && (forall id :: id in sessions ==> Conversation.Valid(sessions[id].Value()))
      && (forall a, b :: a in sessions && b in sessions && a != b ==> sessions[a] != sessions[b])
    }

    /** The record of `id`, or the initial record for an id not seen yet. */
    function RecordOf(id: string): Conversation.Record
      reads this, sessions.Values
    {
      if id in sessions then sessions[id].Value() else Conversation.Fresh
    }

    constructor ()
      ensures Valid() && sessions == map[]
    {
      sessions := map[];
    }

    /** `user_sessions.setdefault(id, {...})`: the session of `id`, created
        with the initial record if `id` is new; an existing session is
        returned as it is. */
    method GetOrCreate(id: string) returns (s: Session)
      requires Valid()
      modifies this
      ensures Valid()
      ensures sessions == old(sessions)[id := s]
      ensures id in old(sessions) ==> s == old(sessions[id])
      ensures id !in old(sessions) ==> fresh(s)
      ensures s.Value() == old(RecordOf(id))
    {
      if id in sessions {
        s := sessions[id];
      } else {
        s := new Session();
        sessions := sessions[id := s];
        assert forall k | k in sessions && k != id :: sessions[k] != s;
      }
    }

    /** The chat handler: the session of `id` is fetched or created, the
        message is stripped and handled. Every other session keeps its
        object and its record. */
    method Chat(id: string, message: string, generate: string -> Option<string>) returns (reply: string)
      requires Valid()
      modifies this, sessions.Values
      ensures Valid()
      ensures id in sessions && sessions == old(sessions)[id := sessions[id]]
      ensures id in old(sessions) ==> sessions[id] == old(sessions[id])
      ensures id !in old(sessions) ==> fresh(sessions[id])
      ensures forall k :: k in sessions && k != id ==> sessions[k].Value() == old(sessions[k].Value())
      ensures var t := Conversation.Respond(old(RecordOf(id)), Strip(message), generate);
              && sessions[id].Value() == t.next
              && reply == Conversation.ReplyText(t.reply)
    {
      var s := GetOrCreate(id);
      reply := HandleAt(id, Strip(message), generate);
    }

    /** Handles one stripped message on the existing session of `id`. */
    method HandleAt(id: string, text: string, generate: string -> Option<string>) returns (reply: string)
      requires Valid() && id in sessions
      modifies sessions[id]
      ensures Valid() && sessions == old(sessions)
      ensures forall k :: k in sessions && k != id ==> sessions[k].Value() == old(sessions[k].Value())
      ensures var t := Conversation.Respond(old(sessions[id].Value()), text, generate);
              && sessions[id].Value() == t.next
              && reply == Conversation.ReplyText(t.reply)
    {
      Conversation.RespondKeepsValid(sessions[id].Value(), text, generate);
      reply := sessions[id].Handle(text, generate);
      OthersUnchanged(id);
    }

    /** When only the session of `id` has changed, every other session keeps
        its record, and the store stays valid if that session's record is. */
    twostate lemma OthersUnchanged(id: string)
      requires old(Valid()) && id in old(sessions) && sessions == old(sessions)
      requires forall o :: o in sessions.Values && o != sessions[id] ==> unchanged(o)
      requires Conversation.Valid(sessions[id].Value())
      ensures Valid()
      ensures forall k :: k in sessions && k != id ==> sessions[k].Value() == old(sessions[k].Value())
    {
      forall k | k in sessions && k != id
        ensures sessions[k].Value() == old(sessions[k].Value())
      {
        assert sessions[k] in sessions.Values;
      }
    }
  }

  /** Successive requests on one store: a greeting and a name on session
      "a", then a greeting on session "b". The record of "a" afterwards is
      the one the name left it in. */
  method SuccessiveRequests(generate: string -> Option<string>) returns (first: string, second: string, third: string, a: Conversation.Record)
    ensures first == Conversation.ReplyText(Conversation.AskName)
    ensures second == Conversation.ReplyText(Conversation.ThankName("Jane"))
    ensures third == first
    ensures a == Conversation.Record(2, "Jane", "", "", false, 0)
  {
    assert Strip("hi") == "hi" && Strip("Jane") == "Jane";
    var store := new Store();
    Conversation.GreetingAndName(Conversation.Fresh, "hi", generate);
    first := store.Chat("a", "hi", generate);
    var afterHi := Conversation.Fresh.(step := 1);
    assert store.sessions["a"].Value() == afterHi;
    Conversation.GreetingAndName(afterHi, "Jane", generate);
    second := store.Chat("a", "Jane", generate);
    var afterJane := afterHi.(name := "Jane", step := 2);
    assert store.sessions["a"].Value() == afterJane;
    third := store.Chat("b", "hi", generate);
    a := store.sessions["a"].Value();
  }
}
