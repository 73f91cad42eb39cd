/** The browser's saved-chat list (`frontend/script.js`): the open conversation, the id it is
    saved under, and the most-recently-used list of saved chats, capped at twenty. Each
    operation is a function from one `State` to the next; `ChatSession` holds the three globals
    and updates them in place as the script does. The clock (`Date.now()`, the ISO timestamp)
    and the answer to `confirm` are parameters. */
module ChatStore {
  import opened Wrappers

  /** An entry of `conversationHistory`: `sources` is null for the user's own messages. */
  datatype Message = Message(role: string, content: string, sources: Option<seq<string>>)

  /** An entry of `chatHistory`. */
  datatype SavedChat = SavedChat(id: string, title: string, messages: seq<Message>, timestamp: string)

  /** The three globals: `conversationHistory`, `currentChatId` and `chatHistory`. */
  datatype State = State(conversation: seq<Message>, currentId: Option<string>, chats: seq<SavedChat>)

  const MaxChats := 20
  const TitleLength := 50
  const UntitledChat := "Nova Conversa"
  const Ellipsis := "..."
  const UserRole := "user"

  // ---------------------------------------------------------------------
  // generateChatTitle
  // ---------------------------------------------------------------------

  /** Where `messages.find(msg => msg.role === 'user')` stops. */
  function FirstUserIndex(messages: seq<Message>): (k: Option<nat>)
    ensures k.Some? ==> k.value < |messages| && messages[k.value].role == UserRole
    ensures k.Some? ==> forall j :: 0 <= j < k.value ==> messages[j].role != UserRole
    ensures k.None? ==> forall j :: 0 <= j < |messages| ==> messages[j].role != UserRole
  {
    if messages == [] then None
    else if messages[0].role == UserRole then Some(0)
    else
      var rest := FirstUserIndex(messages[1..]);
      if rest.None? then None else Some(rest.value + 1)
  }

  /** The chat's title: the first user message cut to fifty characters, with an ellipsis
      exactly when something was cut, or "Nova Conversa" when the user has not spoken. */
  function GenerateChatTitle(messages: seq<Message>): (t: string)
    ensures FirstUserIndex(messages).None? ==> t == UntitledChat
    ensures FirstUserIndex(messages).Some? ==>
      var c := messages[FirstUserIndex(messages).value].content;
      (|c| <= TitleLength ==> t == c) && (|c| > TitleLength ==> t == c[..TitleLength] + Ellipsis)
  {
    var k := FirstUserIndex(messages);
    if k.None? then UntitledChat
    else
      var content := messages[k.value].content;
      var title := if |content| <= TitleLength then content else content[..TitleLength];
      if |title| < |content| then title + Ellipsis else title
  }

  /** The title never changes as the conversation grows once the user has spoken. */
  lemma {:induction false} FirstUserIndexStable(messages: seq<Message>, more: seq<Message>)
    requires FirstUserIndex(messages).Some?
    ensures FirstUserIndex(messages + more) == FirstUserIndex(messages)
  {
    if messages[0].role != UserRole {
      assert (messages + more)[1..] == messages[1..] + more;
      FirstUserIndexStable(messages[1..], more);
    }
  }

  lemma TitleStable(messages: seq<Message>, more: seq<Message>)
    requires FirstUserIndex(messages).Some?
    ensures GenerateChatTitle(messages + more) == GenerateChatTitle(messages)
  {
    FirstUserIndexStable(messages, more);
    var k := FirstUserIndex(messages).value;
    assert (messages + more)[k] == messages[k];
  }

  /** The title is a prefix of the first user message followed, when that message is longer
      than fifty characters, by the ellipsis. */
  lemma TitleShape(messages: seq<Message>)
    requires FirstUserIndex(messages).Some?
    ensures var c := messages[FirstUserIndex(messages).value].content;
      var t := GenerateChatTitle(messages);
      var n := if |c| <= TitleLength then |c| else TitleLength;
      c[..n] <= t && |t| <= TitleLength + |Ellipsis|
      && (|c| > TitleLength <==> |t| == n + |Ellipsis|)
  {
  }

  // ---------------------------------------------------------------------
  // getThemeName
  // ---------------------------------------------------------------------

  const ThemeNames: map<string, string> := map["dark" := "Escuro", "light" := "Claro", "green" := "Verde", "red" := "Vermelho"]

  /** The Portuguese name of a known theme; any other theme is shown as it is. */
  function ThemeName(theme: string): (n: string)
    ensures theme in ThemeNames ==> n == ThemeNames[theme]
    ensures n != theme <==> theme in ThemeNames
  {
    if theme in ThemeNames then ThemeNames[theme] else theme
  }

  // ---------------------------------------------------------------------
  // The saved-chat list
  // ---------------------------------------------------------------------

  /** `chats.filter(chat => chat.id !== id)`. */
  function Without(chats: seq<SavedChat>, id: string): (r: seq<SavedChat>)
    ensures |r| <= |chats|
    ensures forall c :: c in r <==> c in chats && c.id != id
  {
    if chats == [] then []
    else
      assert forall c :: c in chats <==> c == chats[0] || c in chats[1..];
      (if chats[0].id != id then [chats[0]] else []) + Without(chats[1..], id)
  }

  /** Filtering keeps the order: it distributes over concatenation. */
  lemma {:induction false} WithoutAppend(a: seq<SavedChat>, b: seq<SavedChat>, id: string)
    ensures Without(a + b, id) == Without(a, id) + Without(b, id)
  {
    if a != [] {
      assert (a + b)[0] == a[0] && (a + b)[1..] == a[1..] + b;
      WithoutAppend(a[1..], b, id);
    } else {
      assert a + b == b;
    }
  }

  /** Filtering out an id no entry has changes nothing. */
  lemma {:induction false} WithoutAbsent(chats: seq<SavedChat>, id: string)
    requires forall i :: 0 <= i < |chats| ==> chats[i].id != id
    ensures Without(chats, id) == chats
  {
    if chats != [] {
      WithoutAbsent(chats[1..], id);
    }
  }

  /** Saved chats carry distinct ids. */
  predicate DistinctIds(chats: seq<SavedChat>) {
    forall i, j :: 0 <= i < j < |chats| ==> chats[i].id != chats[j].id
  }

  lemma {:induction false} WithoutKeepsDistinct(chats: seq<SavedChat>, id: string)
    requires DistinctIds(chats)
    ensures DistinctIds(Without(chats, id))
  {
    if chats != [] {
      WithoutKeepsDistinct(chats[1..], id);
      var rest := Without(chats[1..], id);
      if chats[0].id != id {
        forall j | 0 <= j < |rest| ensures chats[0].id != rest[j].id {
          assert rest[j] in chats[1..];
        }
        assert Without(chats, id) == [chats[0]] + rest;
      }
    }
  }

  /** The first saved chat with the id, as `chatHistory.find` returns it. */
  function Find(chats: seq<SavedChat>, id: string): (r: Option<SavedChat>)
    ensures r.Some? ==> r.value in chats && r.value.id == id
    ensures r.None? <==> forall c :: c in chats ==> c.id != id
    ensures chats != [] && chats[0].id == id ==> r == Some(chats[0])
  {
    if chats == [] then None
    else if chats[0].id == id then Some(chats[0])
    else
      assert forall c :: c in chats <==> c == chats[0] || c in chats[1..];
      Find(chats[1..], id)
  }

  /** The list after saving `chat`: its older copy removed, the chat in front, and the list
      cut back to the twenty most recent. */
  function SaveInto(chats: seq<SavedChat>, chat: SavedChat): (r: seq<SavedChat>)
    ensures 0 < |r| <= MaxChats && r[0] == chat
    ensures forall i :: 1 <= i < |r| ==> r[i].id != chat.id
    ensures r[1..] <= Without(chats, chat.id)
    ensures |Without(chats, chat.id)| < MaxChats ==> r[1..] == Without(chats, chat.id)
    ensures |r| == if |Without(chats, chat.id)| + 1 > MaxChats then MaxChats else |Without(chats, chat.id)| + 1
  {
    var others := Without(chats, chat.id);
    var listed := [chat] + others;
    assert listed[1..] == others;
    forall i | 1 <= i < |listed| ensures listed[i].id != chat.id {
      assert listed[i] in others;
    }
    if |listed| > MaxChats then listed[..MaxChats] else listed
  }

  /** Saving the same chat twice leaves the list as saving it once. */
  lemma SaveIntoIdempotent(chats: seq<SavedChat>, chat: SavedChat)
    ensures SaveInto(SaveInto(chats, chat), chat) == SaveInto(chats, chat)
  {
    var r := SaveInto(chats, chat);
    assert r == [r[0]] + r[1..];
    WithoutAppend([r[0]], r[1..], chat.id);
    assert Without([r[0]], chat.id) == [] by {
      assert [r[0]][1..] == [];
    }
    WithoutAbsent(r[1..], chat.id);
    assert Without(r, chat.id) == r[1..];
  }

  lemma SaveIntoKeepsDistinct(chats: seq<SavedChat>, chat: SavedChat)
    requires DistinctIds(chats)
    ensures DistinctIds(SaveInto(chats, chat))
  {
    var r := SaveInto(chats, chat);
    var others := Without(chats, chat.id);
    WithoutKeepsDistinct(chats, chat.id);
    forall i, j | 0 <= i < j < |r| ensures r[i].id != r[j].id {
      if i > 0 {
        assert r[i] == r[1..][i - 1] == others[i - 1] && r[j] == r[1..][j - 1] == others[j - 1];
      }
    }
  }

  // ---------------------------------------------------------------------
  // The operations, as transitions of the three globals
  // ---------------------------------------------------------------------

  /** `currentChatId || Date.now().toString()`. */
  function SaveId(currentId: Option<string>, now: string): (id: string)
    ensures currentId.Some? && currentId.value != "" ==> id == currentId.value
    ensures now != "" ==> id != ""
  {
    if currentId.Some? && currentId.value != "" then currentId.value else now
  }

  /** `saveCurrentChat`: nothing when the conversation is empty; otherwise the conversation is
      saved in front of the list under its id, which becomes the current id. */
  function Save(s: State, now: string, timestamp: string): (r: State)
    ensures s.conversation == [] ==> r == s
    ensures s.conversation != [] ==>
      var id := SaveId(s.currentId, now);
      r.conversation == s.conversation && r.currentId == Some(id)
      && r.chats == SaveInto(s.chats, SavedChat(id, GenerateChatTitle(s.conversation), s.conversation, timestamp))
  {
    if s.conversation == [] then s
    else
      var id := SaveId(s.currentId, now);
      State(s.conversation, Some(id), SaveInto(s.chats, SavedChat(id, GenerateChatTitle(s.conversation), s.conversation, timestamp)))
  }

  /** `startNewChat`: saves a non-empty conversation, then empties it and forgets its id. */
  function StartNew(s: State, now: string, timestamp: string): (r: State)
    ensures r.conversation == [] && r.currentId.None?
    ensures r.chats == Save(s, now, timestamp).chats
  {
    var saved := if |s.conversation| > 0 then Save(s, now, timestamp) else s;
    State([], None, saved.chats)
  }

  /** `loadChat`: an unknown id changes nothing; otherwise a non-empty conversation with
      another id is saved first, then the chat's messages become the conversation. */
  function Load(s: State, id: string, now: string, timestamp: string): (r: State)
    ensures Find(s.chats, id).None? ==> r == s
    ensures Find(s.chats, id).Some? ==>
      r.currentId == Some(id) && r.conversation == Find(s.chats, id).value.messages
      && r.chats == (if s.conversation != [] && s.currentId != Some(id) then Save(s, now, timestamp).chats else s.chats)
  {
    var chat := Find(s.chats, id);
    if chat.None? then s
    else
      var saved := if |s.conversation| > 0 && s.currentId != Some(id) then Save(s, now, timestamp) else s;
      State(chat.value.messages, Some(id), saved.chats)
  }

  /** `deleteChat` as written: when confirmed, every saved chat with the id is removed, and
      when it was the open chat a new chat is started, which saves the open conversation. */
  function Delete(s: State, id: string, confirmed: bool, now: string, timestamp: string): (r: State)
    ensures !confirmed ==> r == s
    ensures confirmed && s.currentId != Some(id) ==> r == s.(chats := Without(s.chats, id))
    ensures confirmed && s.currentId == Some(id) ==> r == StartNew(s.(chats := Without(s.chats, id)), now, timestamp)
  {
    if !confirmed then s
    else
      var remaining := s.(chats := Without(s.chats, id));
      if s.currentId == Some(id) then StartNew(remaining, now, timestamp) else remaining
  }

  /** Deleting the open, non-empty chat saves it again at once: the deleted chat comes back
      at the head of the list with the same id and messages. */
  lemma DeleteOpenChatReappears(s: State, id: string, now: string, timestamp: string)
    requires s.currentId == Some(id) && id != "" && s.conversation != []
    ensures var r := Delete(s, id, true, now, timestamp);
      r.chats != [] && r.chats[0].id == id && r.chats[0].messages == s.conversation
  {
  }

  /** `deleteChat` as evidently intended: the open chat is closed without being saved again. */
  function DeleteIntended(s: State, id: string, confirmed: bool): (r: State)
    ensures !confirmed ==> r == s
    ensures confirmed ==> forall c :: c in r.chats ==> c.id != id
    ensures confirmed ==> r.chats == Without(s.chats, id)
    ensures confirmed && s.currentId == Some(id) ==> r.conversation == [] && r.currentId.None?
    ensures confirmed && s.currentId != Some(id) ==> r.conversation == s.conversation && r.currentId == s.currentId
  {
    if !confirmed then s
    else
      var remaining := s.(chats := Without(s.chats, id));
      if s.currentId == Some(id) then State([], None, remaining.chats) else remaining
  }

  /** The save branch of `addMessage`: the message is appended, and a user message that is
      not the first of the conversation saves the chat. */
  function Add(s: State, role: string, content: string, sources: Option<seq<string>>, save: bool,
               now: string, timestamp: string): (r: State)
    ensures !save ==> r == s
    ensures save ==> r.conversation == s.conversation + [Message(role, content, sources)]
    ensures save && role == UserRole && |s.conversation| >= 1 ==>
      r.currentId.Some? && r.chats != [] && r.chats[0].id == r.currentId.value && r.chats[0].messages == r.conversation
    ensures save && role == UserRole && |s.conversation| >= 1 ==>
      var id := SaveId(s.currentId, now);
      r.currentId == Some(id)
      && r.chats == SaveInto(s.chats, SavedChat(id, GenerateChatTitle(r.conversation), r.conversation, timestamp))
    ensures save && !(role == UserRole && |s.conversation| >= 1) ==> r.chats == s.chats && r.currentId == s.currentId
  {
    if !save then s
    else
      var pushed := s.(conversation := s.conversation + [Message(role, content, sources)]);
      if role == UserRole && |pushed.conversation| > 1 then Save(pushed, now, timestamp) else pushed
  }

  /** Saving then starting a new chat, then loading the id just saved, gives the conversation back. */
  lemma SaveThenReload(s: State, now: string, timestamp: string, later: string, laterTimestamp: string)
    requires s.conversation != []
    ensures var id := SaveId(s.currentId, now);
      var r := Load(StartNew(s, now, timestamp), id, later, laterTimestamp);
      r.conversation == s.conversation && r.currentId == Some(id)
  {
    var id := SaveId(s.currentId, now);
    var t := StartNew(s, now, timestamp);
    assert t.chats[0].id == id;
    assert Find(t.chats, id) == Some(t.chats[0]);
  }

  /** Saving twice in a row, at the same time, is the same as saving once. */
  lemma SaveIdempotent(s: State, now: string, later: string, timestamp: string)
    requires now != ""
    ensures Save(Save(s, now, timestamp), later, timestamp) == Save(s, now, timestamp)
  {
    if s.conversation != [] {
      var id := SaveId(s.currentId, now);
      SaveIntoIdempotent(s.chats, SavedChat(id, GenerateChatTitle(s.conversation), s.conversation, timestamp));
    }
  }

  // ---------------------------------------------------------------------
  // The invariant the operations keep
  // ---------------------------------------------------------------------

  /** At most twenty saved chats with distinct, non-empty ids and non-empty messages, and a
      current id only for a non-empty conversation. */
  predicate Valid(s: State) {
    |s.chats| <= MaxChats && DistinctIds(s.chats)
    && (forall i :: 0 <= i < |s.chats| ==> s.chats[i].id != "" && s.chats[i].messages != [])
    && (s.currentId.Some? ==> s.currentId.value != "" && s.conversation != [])
  }

  lemma SaveIntoKeepsEntries(chats: seq<SavedChat>, chat: SavedChat)
    requires forall i :: 0 <= i < |chats| ==> chats[i].id != "" && chats[i].messages != []
    requires chat.id != "" && chat.messages != []
    ensures var r := SaveInto(chats, chat);
      forall i :: 0 <= i < |r| ==> r[i].id != "" && r[i].messages != []
  {
    var r := SaveInto(chats, chat);
    var others := Without(chats, chat.id);
    forall i | 1 <= i < |r| ensures r[i].id != "" && r[i].messages != [] {
      assert r[i] == r[1..][i - 1] == others[i - 1];
      assert r[i] in chats;
    }
  }

  lemma SaveKeepsValid(s: State, now: string, timestamp: string)
    requires Valid(s) && now != ""
    ensures Valid(Save(s, now, timestamp))
  {
    if s.conversation != [] {
      var id := SaveId(s.currentId, now);
      var chat := SavedChat(id, GenerateChatTitle(s.conversation), s.conversation, timestamp);
      SaveIntoKeepsDistinct(s.chats, chat);
      SaveIntoKeepsEntries(s.chats, chat);
    }
  }

  lemma WithoutKeepsValid(s: State, id: string)
    requires Valid(s)
    ensures Valid(s.(chats := Without(s.chats, id)))
  {
    WithoutKeepsDistinct(s.chats, id);
    var r := Without(s.chats, id);
    forall i | 0 <= i < |r| ensures r[i].id != "" && r[i].messages != [] {
      assert r[i] in s.chats;
    }
  }

  lemma StartNewKeepsValid(s: State, now: string, timestamp: string)
    requires Valid(s) && now != ""
    ensures Valid(StartNew(s, now, timestamp))
  {
    SaveKeepsValid(s, now, timestamp);
  }

  lemma LoadKeepsValid(s: State, id: string, now: string, timestamp: string)
    requires Valid(s) && now != ""
    ensures Valid(Load(s, id, now, timestamp))
  {
    SaveKeepsValid(s, now, timestamp);
    var chat := Find(s.chats, id);
    if chat.Some? {
      var k :| 0 <= k < |s.chats| && s.chats[k] == chat.value;
    }
  }

  lemma DeleteKeepsValid(s: State, id: string, confirmed: bool, now: string, timestamp: string)
    requires Valid(s) && now != ""
    ensures Valid(Delete(s, id, confirmed, now, timestamp))
  {
    WithoutKeepsValid(s, id);
    StartNewKeepsValid(s.(chats := Without(s.chats, id)), now, timestamp);
  }

  lemma AddKeepsValid(s: State, role: string, content: string, sources: Option<seq<string>>, save: bool,
                      now: string, timestamp: string)
    requires Valid(s) && now != ""
    ensures Valid(Add(s, role, content, sources, save, now, timestamp))
  {
    var pushed := s.(conversation := s.conversation + [Message(role, content, sources)]);
    SaveKeepsValid(pushed, now, timestamp);
  }

  lemma DeleteIntendedKeepsValid(s: State, id: string, confirmed: bool)
    requires Valid(s)
    ensures Valid(DeleteIntended(s, id, confirmed))
  {
    WithoutKeepsValid(s, id);
  }

  /** In any valid state, deleting the open chat brings it straight back. */
  lemma DeleteOpenChatAlwaysReappears(s: State, id: string, now: string, timestamp: string)
    requires Valid(s) && s.currentId == Some(id)
    ensures Find(Delete(s, id, true, now, timestamp).chats, id).Some?
  {
    DeleteOpenChatReappears(s, id, now, timestamp);
  }

  // ---------------------------------------------------------------------
  // The page's globals
  // ---------------------------------------------------------------------

  class ChatSession {
    var conversationHistory: seq<Message>
    var currentChatId: Option<string>
    var chatHistory: seq<SavedChat>

    function Snapshot(): State
      reads this
    {
      State(conversationHistory, currentChatId, chatHistory)
    }

    /** The page opens with no conversation and the list `loadChatHistory` parsed, if any. */
    constructor (saved: Option<seq<SavedChat>>)
      ensures Snapshot() == State([], None, if saved.Some? then saved.value else [])
    {
      conversationHistory := [];
      currentChatId := None;
      chatHistory := if saved.Some? then saved.value else [];
    }

    method SaveCurrentChat(now: string, timestamp: string)
      modifies this
      ensures Snapshot() == Save(old(Snapshot()), now, timestamp)
    {
      if |conversationHistory| == 0 {
        return;
      }
      var chatId := SaveId(currentChatId, now);
      var chat := SavedChat(chatId, GenerateChatTitle(conversationHistory), conversationHistory, timestamp);
      chatHistory := Without(chatHistory, chatId);
      chatHistory := [chat] + chatHistory;
      if |chatHistory| > MaxChats {
        chatHistory := chatHistory[..MaxChats];
      }
      currentChatId := Some(chatId);
    }

    method StartNewChat(now: string, timestamp: string)
      modifies this
      ensures Snapshot() == StartNew(old(Snapshot()), now, timestamp)
    {
      if |conversationHistory| > 0 {
        SaveCurrentChat(now, timestamp);
      }
      conversationHistory := [];
      currentChatId := None;
    }

    method LoadChat(chatId: string, now: string, timestamp: string)
      modifies this
      ensures Snapshot() == Load(old(Snapshot()), chatId, now, timestamp)
    {
      var chat := Find(chatHistory, chatId);
      if chat.None? {
        return;
      }
      if |conversationHistory| > 0 && currentChatId != Some(chatId) {
        SaveCurrentChat(now, timestamp);
      }
      currentChatId := Some(chatId);
      conversationHistory := chat.value.messages;
    }

    method DeleteChat(chatId: string, confirmed: bool, now: string, timestamp: string)
      modifies this
      ensures Snapshot() == Delete(old(Snapshot()), chatId, confirmed, now, timestamp)
    {
      if confirmed {
        chatHistory := Without(chatHistory, chatId);
        if currentChatId == Some(chatId) {
          StartNewChat(now, timestamp);
        }
      }
    }

    /** `deleteChat` as evidently intended: the open chat is closed without being saved again. */
    method DeleteChatIntended(chatId: string, confirmed: bool)
      modifies this
      ensures Snapshot() == DeleteIntended(old(Snapshot()), chatId, confirmed)
    {
      if confirmed {
        chatHistory := Without(chatHistory, chatId);
        if currentChatId == Some(chatId) {
          conversationHistory := [];
          currentChatId := None;
        }
      }
    }

    method AddMessage(role: string, content: string, sources: Option<seq<string>>, save: bool,
                      now: string, timestamp: string)
      modifies this
      ensures Snapshot() == Add(old(Snapshot()), role, content, sources, save, now, timestamp)
    {
      if save {
        conversationHistory := conversationHistory + [Message(role, content, sources)];
        if role == UserRole && |conversationHistory| > 1 {
          SaveCurrentChat(now, timestamp);
        }
      }
    }
  }
}
