/** One turn of the chat handler on a session record, as a function of the
    record, the stripped message text and the text generator, and what
    follows for whole conversations. */
module Conversation {
  import opened Wrappers
  import opened Text
  import opened Validators
  import opened Resume

  /** The per-session record: its onboarding step, the visitor's details and
      the number of generator calls made so far. */
  datatype Record = Record(
    step: int,
    name: string,
    email: string,
    phone: string,
    wantsPhone: bool,
    geminiCount: int)

  /** The record a session starts with. */
  const Fresh: Record := Record(0, "", "", "", false, 0)

  /** The most generator calls a session may make. */
  const QuotaCap: int := 2

  /** What every record reachable from Fresh satisfies. */
  predicate Valid(r: Record) {
    0 <= r.step <= 5 && 0 <= r.geminiCount <= QuotaCap
  }

  /** The replies, one per branch of the handler. */
  datatype Reply =
    | AskName                 // step 0
    | ThankName(name: string) // step 1
    | AskPhoneOptIn           // step 2, email accepted
    | InvalidEmail            // step 2, email rejected
    | AskPhone                // step 3, "yes"
    | OpenQuestions           // step 3, anything else
    | PhoneSaved              // step 4, phone accepted
    | InvalidPhone            // step 4, phone rejected
    | Answer(topic: Topic)    // step 5, keyword router
    | QuotaSpent              // step 5, quota used up
    | Generated(text: string) // step 5, generator answered
    | GenerationFailed        // step 5, generator raised
    | NotUnderstood           // no step matched

  /** The text sent back for each reply. */
  function ReplyText(r: Reply): string {
    match r
    case AskName => "\U{1F44B} Hi there! I'm Cletus. May I know your name?"
    case ThankName(name) => "Thanks " + name + "! Could you please share your email?"
    case AskPhoneOptIn => "Would you like to provide your phone number? (yes/no)"
    case InvalidEmail => " Invalid email format. Please enter a valid email like name@example.com."
    case AskPhone => "Please enter your phone number:"
    case OpenQuestions => "Awesome! You can now ask me anything about my resume or other queries."
    case PhoneSaved => "Got it! Now feel free to ask anything about my resume or general questions."
    case InvalidPhone => "Invalid phone number. Please enter a valid one."
    case Answer(t) => TopicReply(t)
    case QuotaSpent =>
      "I've answered your questions! \U{1F60A} For anything more, feel free to contact me at:\n"
      + "cletusbobola@gmail.com\n WhatsApp: 6381174925"
    case Generated(text) => text
    case GenerationFailed => "\U{26A0}\U{FE0F} Error generating response"
    case NotUnderstood => "I didn't understand that. Can you please repeat?"
  }

  /** The prompt sent to the text generator for a question. */
  function Prompt(text: string): string {
    "Respond politely. Do not flirt or use abusive language. Q: " + text
  }

  /** The outcome of one message: the new record, the reply, and the prompt
      sent to the generator if it was called. */
  datatype Turn = Turn(next: Record, reply: Reply, asked: Option<string>)

  /** One message, already stripped, on record `r`. `generate` stands for the
      generator: None when the call raises. */
  function Respond(r: Record, text: string, generate: string -> Option<string>): Turn {
    if r.step == 0 then
      Turn(r.(step := 1), AskName, None)
    else if r.step == 1 then
      Turn(r.(name := text, step := 2), ThankName(text), None)
    else if r.step == 2 then
      if IsValidEmail(text) then Turn(r.(email := text, step := 3), AskPhoneOptIn, None)
      else Turn(r, InvalidEmail, None)
    else if r.step == 3 then
      if Lower(text) == "yes" then Turn(r.(wantsPhone := true, step := 4), AskPhone, None)
      else Turn(r.(wantsPhone := false, step := 5), OpenQuestions, None)
    else if r.step == 4 then
      if IsValidPhone(text) then Turn(r.(phone := text, step := 5), PhoneSaved, None)
      else Turn(r, InvalidPhone, None)
    else if r.step >= 5 then
      match Route(text)
      case Some(topic) => Turn(r, Answer(topic), None)
      case None =>
        if r.geminiCount >= QuotaCap then Turn(r, QuotaSpent, None)
        else
          var prompt := Prompt(text);
          var reply := match generate(prompt)
                       case Some(out) => Generated(Strip(out))
                       case None => GenerationFailed;
          Turn(r.(geminiCount := r.geminiCount + 1), reply, Some(prompt))
    else
      Turn(r, NotUnderstood, None)
  }

  /** Steps 0 and 1: a greeting whatever the text, then the text becomes the name. */
  lemma GreetingAndName(r: Record, text: string, g: string -> Option<string>)
    ensures r.step == 0 ==> Respond(r, text, g) == Turn(r.(step := 1), AskName, None)
    ensures r.step == 1 ==> Respond(r, text, g) == Turn(r.(name := text, step := 2), ThankName(text), None)
  {
  }

  /** Step 2: an email of the accepted shape is stored and the step moves to 3;
      any other text leaves the record as it was. */
  lemma EmailStep(r: Record, text: string, g: string -> Option<string>)
    requires r.step == 2
    ensures var t := Respond(r, text, g);
      && (IsEmailShape(text) ==> t.next == r.(email := text, step := 3) && t.reply == AskPhoneOptIn)
      && (!IsEmailShape(text) ==> t.next == r && t.reply == InvalidEmail)
      && t.asked == None
  {
    EmailIff(text);
  }

  /** Step 3: exactly the case variants of "yes" ask for a phone (step 4);
      anything else records the refusal and opens the questions (step 5). */
  lemma PhoneOptInStep(r: Record, text: string, g: string -> Option<string>)
    requires r.step == 3
    ensures var t := Respond(r, text, g);
      var yes := |text| == 3 && (text[0] == 'y' || text[0] == 'Y')
                 && (text[1] == 'e' || text[1] == 'E') && (text[2] == 's' || text[2] == 'S');
      && (yes ==> t.next == r.(wantsPhone := true, step := 4) && t.reply == AskPhone)
      && (!yes ==> t.next == r.(wantsPhone := false, step := 5) && t.reply == OpenQuestions)
  {
    LowerIsYes(text);
  }

  /** Step 4: a phone number of the accepted shape is stored and the step
      moves to 5; any other text leaves the record as it was. */
  lemma PhoneStep(r: Record, text: string, g: string -> Option<string>)
    requires r.step == 4
    ensures var t := Respond(r, text, g);
      && (IsPhoneShape(text) ==> t.next == r.(phone := text, step := 5) && t.reply == PhoneSaved)
      && (!IsPhoneShape(text) ==> t.next == r && t.reply == InvalidPhone)
      && t.asked == None
  {
    PhoneIff(text);
  }

  /** Open questions: a question the router answers changes nothing; otherwise
      a spent quota changes nothing, and an unspent one is charged exactly one
      call whether the generator answers or raises. */
  lemma QuestionStep(r: Record, text: string, g: string -> Option<string>)
    requires r.step >= 5
    ensures var t := Respond(r, text, g);
      && (Route(text).Some? ==> t == Turn(r, Answer(Route(text).value), None))
      && (Route(text).None? && r.geminiCount >= QuotaCap ==> t == Turn(r, QuotaSpent, None))
      && (Route(text).None? && r.geminiCount < QuotaCap ==>
            && t.next == r.(geminiCount := r.geminiCount + 1)
            && t.asked == Some(Prompt(text))
            && t.reply == (if g(Prompt(text)).Some? then Generated(Strip(g(Prompt(text)).value))
                           else GenerationFailed))
  {
  }

  /** A turn keeps a valid record valid, never lowers the step, never touches
      the step once it is 5, and calls the generator exactly when it raises
      the count, by one. */
  lemma RespondKeepsValid(r: Record, text: string, g: string -> Option<string>)
    requires Valid(r)
    ensures var t := Respond(r, text, g);
      && Valid(t.next)
      && r.step <= t.next.step
      && (r.step == 5 ==> t.next.step == 5)
      && (t.asked.Some? <==> t.next.geminiCount == r.geminiCount + 1)
      && (t.asked.None? <==> t.next.geminiCount == r.geminiCount)
  {
  }

  /** The "didn't understand" reply is given exactly for a negative step, so
      never for a valid record. */
  lemma NotUnderstoodOnlyForNegativeStep(r: Record, text: string, g: string -> Option<string>)
    ensures Respond(r, text, g).reply == NotUnderstood <==> r.step < 0
  {
  }
}
