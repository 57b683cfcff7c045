/**
 * The `useOptimistic` chat demo (MessageDemo): a mock server that rejects
 * messages mentioning "fail", the append-only optimistic overlay, the send
 * flow that confirms or marks a message as failed, and the status label each
 * message shows. Message ids come from `Math.random` in the source and are
 * parameters here; the server latency is not modelled.
 */
module OptimisticChat {
  import opened Wrappers
  import opened Text

  datatype Sender = User | Bot

  /** A chat message; the optional `sending` and `error` flags read false when absent. */
  datatype Message = Message(id: string, text: string, sender: Sender, sending: bool, error: bool)

  const FailKeyword := "fail"
  const DeliveryFailed := "Message delivery failed"

  /** `sendMessageToServer(message)` once its latency has elapsed: it throws or echoes the text. */
  function SendToServer(message: string): (r: Result<string>)
    ensures r.Failure? <==> Contains(Lower(message), FailKeyword)
    ensures r.Success? ==> r.value == message
    ensures r.Failure? ==> r.error == DeliveryFailed
  {
    if Contains(Lower(message), FailKeyword) then Failure(DeliveryFailed) else Success(message)
  }

  /** The update function given to `useOptimistic`: `[...currentMessages, newMessage]`. */
  function AppendOptimistic(current: seq<Message>, m: Message): (r: seq<Message>)
    ensures |r| == |current| + 1
    ensures r[..|current|] == current && r[|current|] == m
  {
    current + [m]
  }

  /** The optimistic state: the base list with every pending update applied in order. */
  function Overlay(base: seq<Message>, updates: seq<Message>): seq<Message>
    decreases |updates|
  {
    if updates == [] then base
    else AppendOptimistic(Overlay(base, updates[..|updates| - 1]), updates[|updates| - 1])
  }

  /** Applying the pending appends shows the base list followed by the pending messages in order. */
  lemma {:induction false} OverlayAppends(base: seq<Message>, updates: seq<Message>)
    ensures Overlay(base, updates) == base + updates
    decreases |updates|
  {
    if updates != [] {
      var init := updates[..|updates| - 1];
      OverlayAppends(base, init);
      assert base + updates == (base + init) + [updates[|updates| - 1]];
    }
  }

  /** The entry shown at once when a message is sent. */
  function OptimisticEntry(id: string, text: string): Message {
    Message(id, text, User, true, false)
  }

  /** The entry appended to the source list once the server has answered. */
  function SettledEntry(id: string, text: string): (m: Message)
    ensures m.sender.User? && m.text == text && m.id == id && !m.sending
    ensures m.error <==> SendToServer(text).Failure?
  {
    if SendToServer(text).Success? then Message(id, text, User, false, false)
    else Message(id, text, User, false, true)
  }

  const FailedLabel := "FAILED"
  const SendingLabel := "SENDING..."
  const SentLabel := "SENT"

  lemma LabelsDistinct()
    ensures FailedLabel != SendingLabel && FailedLabel != SentLabel && SendingLabel != SentLabel
  {
    assert |FailedLabel| == 6 && |SendingLabel| == 10 && |SentLabel| == 4;
  }

  /** The status indicator under a message bubble; bot messages have none. */
  function StatusLabel(m: Message): (r: Option<string>)
    ensures r.None? <==> m.sender.Bot?
    ensures r == Some(FailedLabel) <==> m.sender.User? && m.error
    ensures r == Some(SendingLabel) <==> m.sender.User? && !m.error && m.sending
    ensures r == Some(SentLabel) <==> m.sender.User? && !m.error && !m.sending
  {
    LabelsDistinct();
    if m.sender.Bot? then None
    else if m.error then Some(FailedLabel)
    else if m.sending then Some(SendingLabel)
    else Some(SentLabel)
  }

  /** The optimistic entry reads "SENDING..."; once settled, the message reads "SENT" or, if the server refused it, "FAILED". */
  lemma LabelsAcrossASend(optimisticId: string, settledId: string, text: string)
    ensures StatusLabel(OptimisticEntry(optimisticId, text)) == Some(SendingLabel)
    ensures StatusLabel(SettledEntry(settledId, text))
            == if Contains(Lower(text), FailKeyword) then Some(FailedLabel) else Some(SentLabel)
  {
  }

  /** The two bot messages the conversation starts with. */
  const InitialMessages := [
    Message("1", "Welcome to the Observatory Comms Link.", Bot, false, false),
    Message("2", "Messages you send here use optimistic updates.", Bot, false, false)
  ]

  /** The chat component's state: the source list, the optimistic updates still pending, and the text field. */
  class Chat {
    /** The source of truth, `messages`. */
    var messages: seq<Message>
    /** The optimistic updates applied over `messages` while a send is in flight. */
    var pending: seq<Message>
    /** What the text field holds. */
    var draft: string

    /** Settled messages are never marked as sending; pending ones are user messages marked as sending and not failed. */
    ghost predicate Valid()
      reads this
    {
      && (forall k :: 0 <= k < |messages| ==> !messages[k].sending)
      && (forall k :: 0 <= k < |pending| ==> pending[k].sender.User? && pending[k].sending && !pending[k].error)
    }

    /** `optimisticMessages`: what the message area renders. */
    function Shown(): seq<Message>
      reads this
    {
      Overlay(messages, pending)
    }

    constructor ()
      ensures Valid()
      ensures messages == InitialMessages && pending == [] && draft == ""
    {
      messages := InitialMessages;
      pending := [];
      draft := "";
    }

    /** The user edits the text field. */
    method Type(text: string)
      modifies this`draft
      ensures draft == text
    {
      draft := text;
    }

    /**
     * The synchronous part of `handleSend`: read the field, give up on an
     * empty text, otherwise reset the form and add the optimistic entry.
     */
    method Submit(optimisticId: string) returns (text: string, started: bool)
      requires Valid()
      modifies this
      ensures Valid()
      ensures text == old(draft) && started == (text != "")
      ensures !started ==> messages == old(messages) && pending == old(pending) && draft == old(draft)
      ensures started ==> draft == "" && messages == old(messages)
      ensures started ==> pending == old(pending) + [OptimisticEntry(optimisticId, text)]
      ensures started ==> Shown() == old(Shown()) + [OptimisticEntry(optimisticId, text)]
    {
      text := draft;
      started := text != "";
      if !started {
        return;
      }
      draft := "";
      pending := pending + [OptimisticEntry(optimisticId, text)];
      OverlayAppends(messages, old(pending));
      OverlayAppends(messages, pending);
    }

    /**
     * The rest of `handleSend` once the server has answered: the message is
     * appended to the source list, confirmed or marked as failed, and the
     * optimistic overlay is dropped as the action settles.
     */
    method Settle(text: string, settledId: string)
      requires Valid()
      modifies this`messages, this`pending
      ensures Valid()
      ensures messages == old(messages) + [SettledEntry(settledId, text)]
      ensures pending == []
      ensures Shown() == messages
    {
      messages := messages + [SettledEntry(settledId, text)];
      pending := [];
    }

    /** `handleSend` from submission to settlement, with no other send in flight. */
    method HandleSend(optimisticId: string, settledId: string) returns (text: string, sent: bool)
      requires Valid()
      requires pending == []
      modifies this
      ensures Valid()
      ensures text == old(draft) && sent == (text != "")
      ensures !sent ==> messages == old(messages) && pending == [] && draft == old(draft)
      ensures sent ==> messages == old(messages) + [SettledEntry(settledId, text)]
      ensures sent ==> pending == [] && draft == ""
    {
      text, sent := Submit(optimisticId);
      if sent {
        Settle(text, settledId);
      }
    }
  }

  /**
   * What the message area shows in a consistent state: the settled messages
   * first, none of them reading "SENDING...", then every optimistic entry
   * still in flight, each reading "SENDING...".
   */
  lemma ShownLabels(c: Chat)
    requires c.Valid()
    ensures |c.Shown()| == |c.messages| + |c.pending|
    ensures forall k :: 0 <= k < |c.messages| ==>
              c.Shown()[k] == c.messages[k] && StatusLabel(c.Shown()[k]) != Some(SendingLabel)
    ensures forall k :: |c.messages| <= k < |c.Shown()| ==> StatusLabel(c.Shown()[k]) == Some(SendingLabel)
  {
    OverlayAppends(c.messages, c.pending);
    assert c.Shown() == c.messages + c.pending;
  }

  /** The source list only grows: a sequence of sends appends one settled entry per non-empty text and edits nothing. */
  lemma {:induction false} SendsOnlyAppend(messages: seq<Message>, texts: seq<string>, ids: seq<string>)
    requires |ids| == |texts|
    ensures var after := AfterSends(messages, texts, ids);
            && |after| == |messages| + NonEmpty(texts)
            && after[..|messages|] == messages
    decreases |texts|
  {
    if texts != [] {
      SendsOnlyAppend(messages, texts[..|texts| - 1], ids[..|ids| - 1]);
    }
  }

  /** How many of the texts are non-empty. */
  function NonEmpty(texts: seq<string>): nat
    decreases |texts|
  {
    if texts == [] then 0
    else NonEmpty(texts[..|texts| - 1]) + (if texts[|texts| - 1] != "" then 1 else 0)
  }

  /** The source list after a run of sends: each non-empty text appends its settled entry, an empty one nothing. */
  function AfterSends(messages: seq<Message>, texts: seq<string>, ids: seq<string>): seq<Message>
    requires |ids| == |texts|
    decreases |texts|
  {
    if texts == [] then messages
    else
      var before := AfterSends(messages, texts[..|texts| - 1], ids[..|ids| - 1]);
      var t := texts[|texts| - 1];
      if t == "" then before else before + [SettledEntry(ids[|ids| - 1], t)]
  }
}
