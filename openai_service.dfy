/** Prompts for the language model that voices the demo users, and the fixed answers
    used when a call fails. */
module OpenAIService {
  import opened Wrappers
  import opened Strings
  import opened Java

  const CHAT_FALLBACK := "Haha that's cool!"
  const FALLBACK_NAME := "Alex Doe"
  const FALLBACK_BIO := "Music lover."

  /** One entry of the chat request: a role and a text. */
  datatype ChatEntry = ChatEntry(role: string, content: string)

  /** A stored message as the history sees it: its sender's name and its text. */
  datatype HistoryMessage = HistoryMessage(senderName: Option<string>, content: Option<string>)

  const SYSTEM_HEAD := "You are "
  const SYSTEM_BIO := ". Your bio is: "
  const SYSTEM_TAIL := ". You are chatting on a dating app. Keep messages short, casual, and friendly. Do B sound like a robot. Do not Use emojis."

  /** The character the model plays. */
  function SystemPrompt(botName: Option<string>, botBio: Option<string>): string {
    SYSTEM_HEAD + OrNullText(botName) + SYSTEM_BIO + OrNullText(botBio) + SYSTEM_TAIL
  }

  lemma SystemPromptNamesTheBot(botName: string, botBio: string)
    ensures Contains(SystemPrompt(Some(botName), Some(botBio)), botName)
    ensures Contains(SystemPrompt(Some(botName), Some(botBio)), botBio)
  {
    ContainsBoth(SYSTEM_HEAD, botName, SYSTEM_BIO, botBio, SYSTEM_TAIL);
  }

  lemma ContainsBoth(head: string, x: string, mid: string, y: string, tail: string)
    ensures Contains(head + x + mid + y + tail, x) && Contains(head + x + mid + y + tail, y)
  {
    assert head + x + mid + y + tail == head + x + (mid + y + tail);
    ContainsMiddle(head, x, mid + y + tail);
    ContainsMiddle(head + x + mid, y, tail);
  }

  /** Messages sent under the bot's own name are the assistant's, all others the user's. */
  function RoleFor(senderName: string, botName: Option<string>): (r: string)
    ensures r == "assistant" <==> botName == Some(senderName)
    ensures r == "assistant" || r == "user"
  {
    if botName == Some(senderName) then "assistant" else "user"
  }

  /** The entry for one history message; a null sender name or a null text throws. */
  function HistoryEntry(m: HistoryMessage, botName: Option<string>): Result<ChatEntry> {
    if m.senderName.None? || m.content.None? then Err(NULL_POINTER)
    else Ok(ChatEntry(RoleFor(m.senderName.value, botName), m.content.value))
  }

  /** The message list of `generateChatReply`: the system entry, then one entry per
      history message in order; it fails when any history entry does. */
  function ChatMessages(botName: Option<string>, botBio: Option<string>, history: seq<HistoryMessage>)
    : (r: Result<seq<ChatEntry>>)
    ensures r.Ok? <==> forall k :: 0 <= k < |history| ==> HistoryEntry(history[k], botName).Ok?
  {
    if forall k :: 0 <= k < |history| ==> HistoryEntry(history[k], botName).Ok? then
      Ok([ChatEntry("system", SystemPrompt(botName, botBio))]
         + seq(|history|, k requires 0 <= k < |history| => HistoryEntry(history[k], botName).value))
    else Err(NULL_POINTER)
  }

  /** The list has one entry more than the history, opens with the system entry and
      keeps the history's order, each entry's role saying whether the bot wrote it. */
  lemma ChatMessagesShape(botName: Option<string>, botBio: Option<string>, history: seq<HistoryMessage>)
    requires ChatMessages(botName, botBio, history).Ok?
    ensures var m := ChatMessages(botName, botBio, history).value;
      |m| == |history| + 1
      && m[0] == ChatEntry("system", SystemPrompt(botName, botBio))
      && forall k :: 0 <= k < |history| ==>
           history[k].senderName.Some? && history[k].content.Some?
           && m[k + 1] == ChatEntry(RoleFor(history[k].senderName.value, botName), history[k].content.value)
  {
  }

  method BuildChatMessages(botName: Option<string>, botBio: Option<string>, history: seq<HistoryMessage>)
    returns (r: Result<seq<ChatEntry>>)
    ensures r == ChatMessages(botName, botBio, history)
  {
    var messages := [ChatEntry("system", SystemPrompt(botName, botBio))];
    var i := 0;
    while i < |history|
      invariant 0 <= i <= |history| && |messages| == i + 1
      invariant messages[0] == ChatEntry("system", SystemPrompt(botName, botBio))
      invariant forall k :: 0 <= k < i ==> HistoryEntry(history[k], botName).Ok?
      invariant forall k :: 0 <= k < i ==> messages[k + 1] == HistoryEntry(history[k], botName).value
    {
      var entry := HistoryEntry(history[i], botName);
      if entry.Err? {
        assert !HistoryEntry(history[i], botName).Ok?;
        return Err(entry.error);
      }
      messages := messages + [entry.value];
      i := i + 1;
    }
    assert messages == [ChatEntry("system", SystemPrompt(botName, botBio))]
      + seq(|history|, k requires 0 <= k < |history| => HistoryEntry(history[k], botName).value);
    r := Ok(messages);
  }

  /** `generateChatReply`: the model's answer, or the fixed reply when the call
      fails. `chat` stands for the HTTP call (`None` where it throws). */
  method GenerateChatReply(botName: Option<string>, botBio: Option<string>, history: seq<HistoryMessage>,
                           chat: seq<ChatEntry> -> Option<string>) returns (r: Result<string>)
    ensures ChatMessages(botName, botBio, history).Err? ==> r == Err(NULL_POINTER)
    ensures ChatMessages(botName, botBio, history).Ok? ==>
      var answer := chat(ChatMessages(botName, botBio, history).value);
      r == Ok(if answer.Some? then answer.value else CHAT_FALLBACK)
  {
    var messages := BuildChatMessages(botName, botBio, history);
    if messages.Err? {
      return Err(messages.error);
    }
    var answer := chat(messages.value);
    r := Ok(if answer.Some? then answer.value else CHAT_FALLBACK);
  }

  const PROFILE_HEAD := "Generate a JSON object for a dating app user. Age: "
  const PROFILE_MUSIC := ". Music interests: "
  const PROFILE_TAIL := ". Format: {\"name\": \"Firstname Lastname\", \"bio\": \"Short, witty bio (max 150 chars)\"}. Make them sound real, casual, and relatable."

  /** The profile prompt of `generateBotProfile`. */
  function ProfilePrompt(age: int, musicSample: seq<string>): string {
    PROFILE_HEAD + IntToString(age) + PROFILE_MUSIC + JoinWith(musicSample, ", ") + PROFILE_TAIL
  }

  lemma ProfilePromptMentionsAge(age: int, musicSample: seq<string>)
    ensures Contains(ProfilePrompt(age, musicSample), IntToString(age))
  {
    ContainsBoth(PROFILE_HEAD, IntToString(age), PROFILE_MUSIC, JoinWith(musicSample, ", "), PROFILE_TAIL);
  }

  lemma ProfilePromptMentionsMusic(age: int, musicSample: seq<string>)
    ensures Contains(ProfilePrompt(age, musicSample), JoinWith(musicSample, ", "))
  {
    ContainsBoth(PROFILE_HEAD, IntToString(age), PROFILE_MUSIC, JoinWith(musicSample, ", "), PROFILE_TAIL);
  }

  /** `generateBotProfile`: the model's `{name, bio}`, or the fixed profile when the
      call or the parsing fails (`ask` gives `None` then). */
  function GenerateBotProfile(age: int, musicSample: seq<string>, ask: string -> Option<map<string, string>>)
    : (r: map<string, string>)
    ensures ask(ProfilePrompt(age, musicSample)).None? ==> r == map["name" := FALLBACK_NAME, "bio" := FALLBACK_BIO]
    ensures ask(ProfilePrompt(age, musicSample)).Some? ==> r == ask(ProfilePrompt(age, musicSample)).value
  {
    match ask(ProfilePrompt(age, musicSample))
    case None => map["name" := FALLBACK_NAME, "bio" := FALLBACK_BIO]
    case Some(profile) => profile
  }
}
