/**
  The chatbot's reply: keyword tests on the lower-cased message, first
  match wins. The clock text of the time and date replies is a parameter.
*/
module Chatbot {
  import opened Ascii

  /** Which reply a message gets. */
  datatype Reply = Greeting | HelpReply | TimeReply | DateReply | Goodbye | Fallback

  /** The reply to an already lower-cased message, in the order of the tests. */
  function Classify(msg: string): (r: Reply)
    ensures r == Greeting <==> Contains(msg, "hello") || Contains(msg, "hi")
    ensures r == Fallback <==>
      !Contains(msg, "hello") && !Contains(msg, "hi") && !Contains(msg, "help")
      && !Contains(msg, "time") && !Contains(msg, "date") && !Contains(msg, "bye")
  {
    if Contains(msg, "hello") || Contains(msg, "hi") then Greeting
    else if Contains(msg, "help") then HelpReply
    else if Contains(msg, "time") then TimeReply
    else if Contains(msg, "date") then DateReply
    else if Contains(msg, "bye") then Goodbye
    else Fallback
  }

  /** The text of a reply; `clock` is `%H:%M:%S` and `today` is `%d %B %Y` of the current moment. */
  function ReplyText(r: Reply, clock: string, today: string): string {
    match r
    case Greeting => "Hey 👋 How can I help you today?"
    case HelpReply => "I’m a simple Python chatbot. Ask me about the time, date, or just chat 🙂"
    case TimeReply => "The current time is " + clock
    case DateReply => "Today's date is " + today
    case Goodbye => "Goodbye! 👋 Have a great day."
    case Fallback => "🤖 I’m still learning. Try something else!"
  }

  /** `get_bot_response`. */
  function BotResponse(message: string, clock: string, today: string): string {
    ReplyText(Classify(Lower(message)), clock, today)
  }

  /**
    The reply does not depend on the case of the message: messages that lower-case
    alike get the same reply, among them the message written in capitals or in small letters.
  */
  lemma CaseInsensitive(m1: string, m2: string, clock: string, today: string)
    ensures Lower(m1) == Lower(m2) ==> BotResponse(m1, clock, today) == BotResponse(m2, clock, today)
    ensures BotResponse(Upper(m1), clock, today) == BotResponse(m1, clock, today)
    ensures BotResponse(Lower(m1), clock, today) == BotResponse(m1, clock, today)
  {
    LowerOfUpper(m1);
    LowerIdempotent(m1);
  }

  /**
    The tests are tried in a strict order: each reply is given only when
    every earlier keyword is absent and its own is present.
  */
  lemma Priority(msg: string)
    ensures Classify(msg) == HelpReply <==> !Contains(msg, "hello") && !Contains(msg, "hi") && Contains(msg, "help")
    ensures Classify(msg) == TimeReply <==>
      !Contains(msg, "hello") && !Contains(msg, "hi") && !Contains(msg, "help") && Contains(msg, "time")
    ensures Classify(msg) == DateReply <==>
      !Contains(msg, "hello") && !Contains(msg, "hi") && !Contains(msg, "help") && !Contains(msg, "time")
      && Contains(msg, "date")
    ensures Classify(msg) == Goodbye <==>
      !Contains(msg, "hello") && !Contains(msg, "hi") && !Contains(msg, "help") && !Contains(msg, "time")
      && !Contains(msg, "date") && Contains(msg, "bye")
  {
  }

  /** `hi` is found inside other words: `this` gets the greeting, and so does `which time is it`. */
  lemma GreetingInsideWords()
    ensures Classify("this") == Greeting
    ensures Classify("which time is it") == Greeting
  {
    assert "this"[1..3] == "hi";
    ContainsAt("this", "hi", 1);
    assert "which time is it"[1..3] == "hi";
    ContainsAt("which time is it", "hi", 1);
  }

  /** The time reply embeds the clock text unchanged. */
  lemma TimeReplyEmbedsClock(clock: string, today: string)
    ensures var t := ReplyText(TimeReply, clock, today); t[|t| - |clock|..] == clock
  {
  }
}
