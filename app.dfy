/** The chat screen's state in App.tsx: the message history, the loading flag, the error notice,
    the current view and the prompt handed to the message box, with `handleSendMessage`,
    `handleNavigate`, the back button and the start-up key check. */
module App {
  import opened Types
  import opened Text
  import Gateway

  /** The notice shown when the stream throws something that is not an `Error`. */
  const UnknownError: string := "An unknown error occurred."

  /** The prompts the dashboard's two chat cards pass to `handleNavigate`. */
  const MarketPricesPrompt: string := "What are the current tomato prices?"
  const SchemesPrompt: string := "Tell me about subsidies for drip irrigation."

  /** Every id in the history is below `bound`. */
  predicate IdsBelow(history: seq<Message>, bound: nat) {
    forall i :: 0 <= i < |history| ==> history[i].id < bound
  }

  /** Ids grow along the history: they are unique and in creation order. */
  predicate IdsIncreasing(history: seq<Message>) {
    forall i, j :: 0 <= i < j < |history| ==> history[i].id < history[j].id
  }

  /** The updater applied per chunk: `prev.map(msg => msg.id === id ? {...msg, content: msg.content + chunk} : msg)`.
      Only the message with that id changes, and only by having the chunk appended. */
  function AppendChunk(history: seq<Message>, id: nat, chunk: string): (r: seq<Message>)
    ensures |r| == |history|
    ensures forall i :: 0 <= i < |r| && history[i].id != id ==> r[i] == history[i]
    ensures forall i :: 0 <= i < |r| && history[i].id == id ==>
      r[i] == Message(id, history[i].role, history[i].content + chunk)
  {
    seq(|history|, i requires 0 <= i < |history| =>
      if history[i].id == id then history[i].(content := history[i].content + chunk) else history[i])
  }

  /** The updater applied on failure: `prev.filter(msg => msg.id !== id)`. */
  function RemoveById(history: seq<Message>, id: nat): seq<Message> {
    if history == [] then []
    else RemoveById(history[..|history| - 1], id)
         + (if history[|history| - 1].id == id then [] else [history[|history| - 1]])
  }

  /** The filter keeps exactly the messages whose id differs from the given one. */
  lemma {:induction false} RemoveByIdMembers(history: seq<Message>, id: nat)
    ensures |RemoveById(history, id)| <= |history|
    ensures forall m :: m in RemoveById(history, id) <==> m in history && m.id != id
  {
    if history != [] {
      var init := history[..|history| - 1];
      RemoveByIdMembers(init, id);
      assert history == init + [history[|history| - 1]];
    }
  }

  /** Filtering out an id that is not present keeps the history as it is. */
  lemma {:induction false} RemoveAbsent(history: seq<Message>, id: nat)
    requires forall i :: 0 <= i < |history| ==> history[i].id != id
    ensures RemoveById(history, id) == history
  {
    if history != [] {
      var init := history[..|history| - 1];
      RemoveAbsent(init, id);
      assert init + [history[|history| - 1]] == history;
    }
  }

  /** Removing the model message of a failed exchange leaves the history as it was before it:
      the user message and everything earlier stay. */
  lemma RemoveLast(history: seq<Message>, m: Message)
    requires IdsBelow(history, m.id)
    ensures RemoveById(history + [m], m.id) == history
  {
    assert (history + [m])[..|history|] == history;
    RemoveAbsent(history, m.id);
  }

  /** Appending a chunk for the last message, whose id no earlier message has, extends that
      message's content and nothing else. */
  lemma AppendToLast(history: seq<Message>, m: Message, chunk: string)
    requires forall i :: 0 <= i < |history| ==> history[i].id != m.id
    ensures AppendChunk(history + [m], m.id, chunk) == history + [m.(content := m.content + chunk)]
  {
    var r := AppendChunk(history + [m], m.id, chunk);
    assert r[|history|] == m.(content := m.content + chunk);
  }

  /** One turn of the chunk loop, for a model message whose id no earlier message has. */
  lemma ChunkStep(before: seq<Message>, id: nat, chunks: seq<string>, i: nat)
    requires IdsBelow(before, id) && i < |chunks|
    ensures AppendChunk(before + [Message(id, Model, Concat(chunks[..i]))], id, chunks[i])
         == before + [Message(id, Model, Concat(chunks[..i + 1]))]
  {
    AppendToLast(before, Message(id, Model, Concat(chunks[..i])), chunks[i]);
    assert chunks[..i + 1][..i] == chunks[..i];
  }

  /** Appending a chunk or removing a message keeps ids bounded and increasing. */
  lemma AppendChunkKeepsIds(history: seq<Message>, id: nat, chunk: string, bound: nat)
    requires IdsBelow(history, bound) && IdsIncreasing(history)
    ensures IdsBelow(AppendChunk(history, id, chunk), bound) && IdsIncreasing(AppendChunk(history, id, chunk))
  {
    var r := AppendChunk(history, id, chunk);
    assert forall i :: 0 <= i < |r| ==> r[i].id == history[i].id;
  }

  lemma {:induction false} RemoveByIdKeepsIds(history: seq<Message>, id: nat, bound: nat)
    requires IdsBelow(history, bound) && IdsIncreasing(history)
    ensures IdsBelow(RemoveById(history, id), bound) && IdsIncreasing(RemoveById(history, id))
  {
    if history != [] {
      var init := history[..|history| - 1];
      var last := history[|history| - 1];
      RemoveByIdKeepsIds(init, id, last.id);
      RemoveByIdKeepsIds(init, id, bound);
      var r := RemoveById(init, id);
      if last.id != id {
        assert forall i :: 0 <= i < |r| ==> r[i].id < last.id;
        assert IdsIncreasing(r + [last]);
      }
    }
  }

  class ChatApp {
    var messages: seq<Message>
    var isLoading: bool
    var error: Option<string>
    var view: View
    var chatPrompt: Option<string>
    /** The next fresh message id, standing for the clock reading used in the source. */
    var nextId: nat

    ghost predicate Valid()
      reads this
    {
      IdsBelow(messages, nextId) && IdsIncreasing(messages)
    }

    /** The initial state, with the start-up effect: a missing API key is reported at once. */
    constructor(apiKey: string)
      ensures Valid()
      ensures messages == [] && !isLoading && view == Dashboard && chatPrompt == None && nextId == 0
      ensures error == Gateway.ApiKeyError(apiKey)
      ensures error.Some? <==> apiKey == ""
    {
      messages := [];
      isLoading := false;
      view := Dashboard;
      chatPrompt := None;
      nextId := 0;
      error := Gateway.ApiKeyError(apiKey);
    }

    /** The synchronous start of `handleSendMessage`. While a reply is loading the call is
        ignored. Otherwise the prompt is cleared, the user message and an empty model message
        are appended, loading starts and the error is cleared. */
    method BeginSend(content: string) returns (accepted: bool, modelId: nat)
      requires Valid()
      modifies this
      ensures Valid()
      ensures accepted == !old(isLoading)
      ensures !accepted ==> unchanged(this)
      ensures accepted ==> modelId == old(nextId) + 1 && nextId == old(nextId) + 2
      ensures accepted ==> messages == old(messages) + [Message(old(nextId), User, content), Message(modelId, Model, [])]
      ensures accepted ==> isLoading && error == None && chatPrompt == None && view == old(view)
    {
      if isLoading {
        return false, 0;
      }
      chatPrompt := None;
      var userId := nextId;
      messages := messages + [Message(userId, User, content)];
      isLoading := true;
      error := None;
      modelId := nextId + 1;
      messages := messages + [Message(modelId, Model, [])];
      nextId := nextId + 2;
      accepted := true;
    }

    /** One iteration of the `for await` loop: the chunk is appended to the model message. */
    method ReceiveChunk(modelId: nat, chunk: string)
      requires Valid()
      modifies this`messages
      ensures Valid()
      ensures messages == AppendChunk(old(messages), modelId, chunk)
    {
      AppendChunkKeepsIds(messages, modelId, chunk, nextId);
      messages := AppendChunk(messages, modelId, chunk);
    }

    /** The `for await` loop: every delivered chunk, in order, is appended to the fresh model
        message, which ends up holding the chunks joined. */
    method ReceiveAll(ghost before: seq<Message>, modelId: nat, chunks: seq<string>)
      requires Valid() && IdsBelow(before, modelId)
      requires messages == before + [Message(modelId, Model, [])]
      modifies this`messages
      ensures Valid()
      ensures messages == before + [Message(modelId, Model, Concat(chunks))]
    {
      assert chunks[..0] == [];
      var i := 0;
      while i < |chunks|
        invariant 0 <= i <= |chunks|
        invariant Valid()
        invariant messages == before + [Message(modelId, Model, Concat(chunks[..i]))]
      {
        ChunkStep(before, modelId, chunks, i);
        ReceiveChunk(modelId, chunks[i]);
        i := i + 1;
      }
      assert chunks[..i] == chunks;
    }

    /** The `catch` block: the error notice is set and the model message removed. */
    method FailSend(modelId: nat, thrown: Thrown)
      requires Valid()
      modifies this`messages, this`error
      ensures Valid()
      ensures error == Some(ErrorText(thrown, UnknownError))
      ensures messages == RemoveById(old(messages), modelId)
    {
      error := Some(ErrorText(thrown, UnknownError));
      RemoveByIdKeepsIds(messages, modelId, nextId);
      messages := RemoveById(messages, modelId);
    }

    /** The `finally` block. */
    method EndSend()
      modifies this`isLoading
      ensures !isLoading
    {
      isLoading := false;
    }

    /** `handleSendMessage` run from start to settlement against the reply `stream`: the
        delivered chunks in order, then possibly a thrown value. */
    method SendMessage(content: string, stream: Gateway.ChunkStream)
      requires Valid()
      modifies this
      ensures Valid()
      ensures old(isLoading) ==> unchanged(this)
      ensures !old(isLoading) ==> !isLoading && chatPrompt == None && view == old(view) && nextId == old(nextId) + 2
      ensures !old(isLoading) && stream.failure.None? ==>
        && messages == old(messages) + [Message(old(nextId), User, content),
                                        Message(old(nextId) + 1, Model, Concat(stream.chunks))]
        && error == None
      ensures !old(isLoading) && stream.failure.Some? ==>
        && messages == old(messages) + [Message(old(nextId), User, content)]
        && error == Some(ErrorText(stream.failure.value.thrown, UnknownError))
    {
      var accepted, modelId := BeginSend(content);
      if !accepted {
        return;
      }
      ghost var before := old(messages) + [Message(old(nextId), User, content)];
      assert messages == before + [Message(modelId, Model, [])];
      var chunks := Gateway.Delivered(stream);
      ReceiveAll(before, modelId, chunks);
      if stream.failure.Some? {
        RemoveLast(before, Message(modelId, Model, Concat(chunks)));
        FailSend(modelId, stream.failure.value.thrown);
        assert messages == before;
      } else {
        assert chunks == stream.chunks;
      }
      EndSend();
    }

    /** `handleNavigate`: switch view; take a non-empty prompt for the message box; entering
        the chat screen starts a new, empty history; the error notice is always cleared. */
    method Navigate(newView: View, prompt: Option<string>)
      requires Valid()
      modifies this
      ensures Valid()
      ensures view == newView && error == None
      ensures chatPrompt == if prompt.Some? && prompt.value != [] then prompt else old(chatPrompt)
      ensures messages == if newView == Chat then [] else old(messages)
      ensures isLoading == old(isLoading) && nextId == old(nextId)
    {
      view := newView;
      if prompt.Some? && prompt.value != [] {
        chatPrompt := prompt;
      }
      if newView == Chat {
        messages := [];
      }
      error := None;
    }

    /** The header's back button: back to the dashboard, nothing else changes. */
    method Back()
      modifies this`view
      ensures view == Dashboard
    {
      view := Dashboard;
    }
  }

  /** Chatting without an API key: the start-up warning is stored in `error` and cleared by the
      navigation that opens the chat screen; then `streamChat` throws before any chunk, so the
      model message is removed again and the configuration error is stored beside the user
      message, whatever the service would reply. */
  method SendWithoutKey(content: string, reply: Gateway.ChunkStream)
    returns (warning: Option<string>, history: seq<Message>, error: Option<string>)
    ensures warning == Some(Gateway.ApiKeyMissing)
    ensures history == [Message(0, User, content)]
    ensures error == Some(Gateway.KeyNotConfigured)
  {
    var app := new ChatApp("");
    warning := app.error;
    app.Navigate(Chat, None);
    assert ShownError(app.view, app.error) == None;
    app.SendMessage(content, Gateway.StreamChat("", reply));
    history, error := app.messages, app.error;
  }

  /** What the screen shows of the error notice: only the chat view renders it, and only when
      its text is truthy, so an empty message shows nothing. */
  function ShownError(view: View, error: Option<string>): (r: Option<string>)
    ensures r.Some? <==> view == Chat && error.Some? && error.value != []
    ensures r.Some? ==> r == error
  {
    if view == Chat && error.Some? && error.value != [] then error else None
  }

  /** A click on the dashboard's cards or on the back button. */
  datatype NavStep = NavigateTo(view: View, prompt: Option<string>) | GoBack

  /** The start-up key warning is stored but never displayed: the app starts on the dashboard,
      which does not render the error, and every way into the chat view goes through
      `handleNavigate`, which clears the error in the same click. `shown` lists what the screen
      displays of the error at start-up and after each step. */
  method StartupWarningNeverShown(apiKey: string, steps: seq<NavStep>)
    returns (stored: Option<string>, shown: seq<Option<string>>)
    ensures stored == Gateway.ApiKeyError(apiKey)
    ensures |shown| == |steps| + 1
    ensures forall k :: 0 <= k < |shown| ==> shown[k] == None
  {
    var app := new ChatApp(apiKey);
    stored := app.error;
    shown := [ShownError(app.view, app.error)];
    var i := 0;
    while i < |steps|
      invariant 0 <= i <= |steps| && |shown| == i + 1
      invariant app.Valid()
      invariant app.view != Chat || app.error == None
      invariant forall k :: 0 <= k < |shown| ==> shown[k] == None
    {
      match steps[i] {
        case NavigateTo(v, p) => app.Navigate(v, p);
        case GoBack => app.Back();
      }
      shown := shown + [ShownError(app.view, app.error)];
      i := i + 1;
    }
  }

  /** A complete exchange: the reply's chunks joined in order, and two more messages. */
  method ExchangeExample()
  {
    var app := new ChatApp("key");
    app.Navigate(Chat, Some(MarketPricesPrompt));
    assert app.chatPrompt == Some(MarketPricesPrompt) && app.messages == [];
    app.SendMessage("What are tomato prices today?",
                    Gateway.ChunkStream(["Tomato", " prices", " are high."], None));
    assert |app.messages| == 2 && !app.isLoading;
    assert Concat(["Tomato", " prices", " are high."]) == "Tomato prices are high.";
    assert app.messages[1].content == "Tomato prices are high.";
  }

  /** An `Error` thrown with an empty message is stored, but the notice stays hidden. */
  method EmptyErrorExample()
  {
    var app := new ChatApp("key");
    app.Navigate(Chat, None);
    app.SendMessage("hi", Gateway.ChunkStream([], Some(Gateway.Failure(0, ErrorObject([])))));
    assert app.error == Some([]) && ShownError(app.view, app.error) == None;
  }

  /** Opening the other dashboard card starts over: the history is emptied, the error cleared
      and the schemes prompt handed to the message box. */
  method NewChatExample()
  {
    var app := new ChatApp("key");
    app.Navigate(Chat, Some(MarketPricesPrompt));
    app.SendMessage("What are tomato prices today?", Gateway.ChunkStream(["High."], Some(Gateway.Failure(1, NonError))));
    assert app.messages != [] && app.error == Some(UnknownError);
    app.Back();
    app.Navigate(Chat, Some(SchemesPrompt));
    assert app.messages == [] && app.error == None && app.chatPrompt == Some(SchemesPrompt);
  }
}
