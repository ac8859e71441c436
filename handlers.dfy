/**
 * The `/tweet`, `/thread` and `/regenerate` handlers of index.js, each run as one sequential
 * step. The transport (`bot.sendMessage`, `bot.deleteMessage`) answers through a `Transport`
 * record and the completion endpoint through an `ApiCall`; the bot keeps, in order, every
 * send, delete and generator call it attempted.
 */
module Handlers {
  import opened Wrappers
  import opened Generator
  import opened Commands
  import opened Sessions
  import opened JsText

  type MessageId = int

  /** The `type` strings the handlers record. */
  const TweetKind: string := "tweet"
  const ThreadKind: string := "thread"

  /** Outbound messages, without their wording. */
  datatype Notice =
    | Working(kind: string)            // the transient "working" notice
    | TweetReply(tweet: Option<string>) // the generated tweet (null content is sent as it is)
    | ThreadReply(segments: seq<string>)
    | ErrorNotice                      // '❌ Sorry, there was an error ...'
    | NothingToRegenerate              // '⚠️ No recent content to regenerate ...'

  /** What the bot attempts towards the outside world. */
  datatype Effect =
    | Send(chatId: ChatId, notice: Notice)
    | Delete(chatId: ChatId, messageId: MessageId)
    | CallGenerator(kind: string, thought: string)

  /** What the transport answers in one handler run: the message the first send resolves to
      (null on failure), whether the delete succeeds, and what the last send resolves to. */
  datatype Transport = Transport(first: Option<MessageId>, deleted: bool, last: Option<MessageId>)

  /** The generator a recorded `type` selects: `generateTweet` for "tweet", `generateThread`
      for anything else, with the reply each one's result becomes. */
  function Produce(kind: string, thought: string, call: ApiCall): (r: Result<Notice, GenerationError>)
    ensures kind == TweetKind ==>
              (r.Success? <==> GenerateTweet(JsString(thought), call).Success?)
              && (r.Success? ==> r.value == TweetReply(GenerateTweet(JsString(thought), call).value))
    ensures kind != TweetKind ==>
              (r.Success? <==> GenerateThread(call).Success?)
              && (r.Success? ==> r.value == ThreadReply(GenerateThread(call).value))
    ensures kind == TweetKind && r.Failure? ==> r.error == GenerateTweet(JsString(thought), call).error
    ensures kind != TweetKind && r.Failure? ==> r.error == GenerateThread(call).error
  {
    if kind == TweetKind then
      match GenerateTweet(JsString(thought), call)
      case Success(tweet) => Success(TweetReply(tweet))
      case Failure(e) => Failure(e)
    else
      match GenerateThread(call)
      case Success(segments) => Success(ThreadReply(segments))
      case Failure(e) => Failure(e)
  }

  /** The effects of one generation run: the working notice; then, only if it was sent, the
      generator call followed by either the error notice or the delete of the working notice
      and the reply. */
  function RunEffects(chatId: ChatId, kind: string, thought: string, working: Option<MessageId>,
                      produced: Result<Notice, GenerationError>): (effects: seq<Effect>)
    ensures |effects| == (if working.None? then 1 else if produced.Failure? then 3 else 4)
    ensures effects[0] == Send(chatId, Working(kind))
    ensures working.Some? ==> effects[1] == CallGenerator(kind, thought)
    ensures working.Some? && produced.Failure? ==> effects[2] == Send(chatId, ErrorNotice)
    ensures working.Some? && produced.Success? ==>
              effects[2] == Delete(chatId, working.value) && effects[3] == Send(chatId, produced.value)
  {
    [Send(chatId, Working(kind))] +
    if working.None? then []
    else
      [CallGenerator(kind, thought)] +
      if produced.Failure? then [Send(chatId, ErrorNotice)]
      else [Delete(chatId, working.value), Send(chatId, produced.value)]
  }

  /** The store after one generation run: the request is recorded exactly when the working
      notice was sent and generation succeeded. */
  function RunStore(entries: map<ChatId, LastRequest>, chatId: ChatId, kind: string, thought: string,
                    now: int, working: Option<MessageId>, produced: Result<Notice, GenerationError>)
    : (updated: map<ChatId, LastRequest>)
    ensures updated.Keys == if working.Some? && produced.Success? then entries.Keys + {chatId} else entries.Keys
    ensures forall c :: c in entries && c != chatId ==> updated[c] == entries[c]
    ensures chatId in updated ==>
              updated[chatId] == if working.Some? && produced.Success? then LastRequest(kind, thought, now) else entries[chatId]
  {
    if working.Some? && produced.Success? then entries[chatId := LastRequest(kind, thought, now)]
    else entries
  }

  /** Every recorded request has a non-empty thought and one of the two kinds. */
  ghost predicate WellFormedStore(entries: map<ChatId, LastRequest>) {
    forall c :: c in entries ==> entries[c].thought != "" && (entries[c].kind == TweetKind || entries[c].kind == ThreadKind)
  }

  /** A run that records a non-empty thought under one of the two kinds keeps the store well formed. */
  lemma RunStoreKeepsWellFormed(entries: map<ChatId, LastRequest>, chatId: ChatId, kind: string, thought: string,
                                now: int, working: Option<MessageId>, produced: Result<Notice, GenerationError>)
    requires WellFormedStore(entries)
    requires thought != "" && (kind == TweetKind || kind == ThreadKind)
    ensures WellFormedStore(RunStore(entries, chatId, kind, thought, now, working, produced))
  {
  }

  class Bot {
    const store: LastRequestStore
    var effects: seq<Effect>

    constructor (store: LastRequestStore)
      ensures this.store == store && effects == []
    {
      this.store := store;
      effects := [];
    }

    /** `safeSendMessage`: a failed send resolves to null instead of throwing. */
    method SafeSendMessage(chatId: ChatId, notice: Notice, answer: Option<MessageId>) returns (msg: Option<MessageId>)
      modifies this
      ensures effects == old(effects) + [Send(chatId, notice)] && msg == answer
    {
      effects := effects + [Send(chatId, notice)];
      msg := answer;
    }

    /** `safeDeleteMessage`: a failed delete resolves to false instead of throwing. */
    method SafeDeleteMessage(chatId: ChatId, messageId: MessageId, answer: bool) returns (ok: bool)
      modifies this
      ensures effects == old(effects) + [Delete(chatId, messageId)] && ok == answer
    {
      effects := effects + [Delete(chatId, messageId)];
      ok := answer;
    }

    /** The `try` block the three handlers share: send the working notice; if it was sent,
        generate; on a throw send the error notice and record nothing; otherwise delete the
        notice, send the reply and record the request, whatever the delete and the reply
        resolved to. `produced` is what awaiting the selected generator gives; the handlers
        pass `Produce(kind, thought, call)`, and it is consulted only after the call is logged. */
    method RunGeneration(chatId: ChatId, kind: string, thought: string, now: int,
                         transport: Transport, produced: Result<Notice, GenerationError>)
      modifies this, store
      ensures effects == old(effects) + RunEffects(chatId, kind, thought, transport.first, produced)
      ensures store.entries == RunStore(old(store.entries), chatId, kind, thought, now, transport.first, produced)
    {
      var loadingMsg := SafeSendMessage(chatId, Working(kind), transport.first);
      if loadingMsg.Some? {
        effects := effects + [CallGenerator(kind, thought)];
        if produced.Failure? {
          var _ := SafeSendMessage(chatId, ErrorNotice, transport.last);
        } else {
          var _ := SafeDeleteMessage(chatId, loadingMsg.value, transport.deleted);
          var _ := SafeSendMessage(chatId, produced.value, transport.last);
          store.Save(chatId, kind, thought, now);
        }
      }
    }

    /** The `/\/tweet (.+)/` handler, at time `now`. */
    method OnTweet(text: string, chatId: ChatId, now: int, transport: Transport, call: ApiCall)
      modifies this, store
      ensures Payload(TweetCommand, text).None? ==>
                effects == old(effects) && store.entries == old(store.entries)
      ensures Payload(TweetCommand, text).Some? ==>
                var thought := Payload(TweetCommand, text).value;
                var produced := Produce(TweetKind, thought, call);
                && effects == old(effects) + RunEffects(chatId, TweetKind, thought, transport.first, produced)
                && store.entries == RunStore(old(store.entries), chatId, TweetKind, thought, now, transport.first, produced)
      ensures WellFormedStore(old(store.entries)) ==> WellFormedStore(store.entries)
    {
      var payload := Payload(TweetCommand, text);
      if payload.Some? {
        if WellFormedStore(store.entries) {
          RunStoreKeepsWellFormed(store.entries, chatId, TweetKind, payload.value, now, transport.first,
                                  Produce(TweetKind, payload.value, call));
        }
        RunGeneration(chatId, TweetKind, payload.value, now, transport, Produce(TweetKind, payload.value, call));
      }
    }

    /** The `/\/thread (.+)/` handler, at time `now`. */
    method OnThread(text: string, chatId: ChatId, now: int, transport: Transport, call: ApiCall)
      modifies this, store
      ensures Payload(ThreadCommand, text).None? ==>
                effects == old(effects) && store.entries == old(store.entries)
      ensures Payload(ThreadCommand, text).Some? ==>
                var thought := Payload(ThreadCommand, text).value;
                var produced := Produce(ThreadKind, thought, call);
                && effects == old(effects) + RunEffects(chatId, ThreadKind, thought, transport.first, produced)
                && store.entries == RunStore(old(store.entries), chatId, ThreadKind, thought, now, transport.first, produced)
      ensures WellFormedStore(old(store.entries)) ==> WellFormedStore(store.entries)
    {
      var payload := Payload(ThreadCommand, text);
      if payload.Some? {
        if WellFormedStore(store.entries) {
          RunStoreKeepsWellFormed(store.entries, chatId, ThreadKind, payload.value, now, transport.first,
                                  Produce(ThreadKind, payload.value, call));
        }
        RunGeneration(chatId, ThreadKind, payload.value, now, transport, Produce(ThreadKind, payload.value, call));
      }
    }

    /** The `/\/regenerate/` handler: reads the store at `readAt` and, if there is a fresh
        entry, runs its generator again with its thought and records it again at `savedAt`. */
    method OnRegenerate(text: string, chatId: ChatId, readAt: int, savedAt: int, transport: Transport, call: ApiCall)
      modifies this, store
      ensures !Mentions(RegenerateCommand, text) ==>
                effects == old(effects) && store.entries == old(store.entries)
      ensures Mentions(RegenerateCommand, text) && Lookup(old(store.entries), chatId, readAt).None? ==>
                effects == old(effects) + [Send(chatId, NothingToRegenerate)] && store.entries == old(store.entries)
      ensures Mentions(RegenerateCommand, text) && Lookup(old(store.entries), chatId, readAt).Some? ==>
                var last := Lookup(old(store.entries), chatId, readAt).value;
                var produced := Produce(last.kind, last.thought, call);
                && effects == old(effects) + RunEffects(chatId, last.kind, last.thought, transport.first, produced)
                && store.entries == RunStore(old(store.entries), chatId, last.kind, last.thought, savedAt, transport.first, produced)
      ensures WellFormedStore(old(store.entries)) ==> WellFormedStore(store.entries)
    {
      if Mentions(RegenerateCommand, text) {
        var lastRequest := Lookup(store.entries, chatId, readAt);
        if lastRequest.None? {
          var _ := SafeSendMessage(chatId, NothingToRegenerate, transport.first);
        } else {
          RunGeneration(chatId, lastRequest.value.kind, lastRequest.value.thought, savedAt, transport,
                        Produce(lastRequest.value.kind, lastRequest.value.thought, call));
        }
      }
    }
  }

  /** The generator is called exactly when the working notice was sent. */
  lemma GeneratesOnlyAfterWorkingNotice(chatId: ChatId, kind: string, thought: string,
                                        working: Option<MessageId>, produced: Result<Notice, GenerationError>)
    ensures CallGenerator(kind, thought) in RunEffects(chatId, kind, thought, working, produced) <==> working.Some?
  {
  }

  /** The error notice is sent exactly when generation threw; then the working notice is not
      deleted and no reply is sent. */
  lemma ErrorNoticeOnlyOnFailure(chatId: ChatId, kind: string, thought: string,
                                 working: Option<MessageId>, produced: Result<Notice, GenerationError>)
    requires produced.Success? ==> produced.value != ErrorNotice
    ensures Send(chatId, ErrorNotice) in RunEffects(chatId, kind, thought, working, produced)
            <==> working.Some? && produced.Failure?
    ensures produced.Failure? ==> forall e :: e in RunEffects(chatId, kind, thought, working, produced) ==> !e.Delete?
    ensures working.Some? && produced.Failure? ==>
              RunEffects(chatId, kind, thought, working, produced)
                == [Send(chatId, Working(kind)), CallGenerator(kind, thought), Send(chatId, ErrorNotice)]
  {
  }

  /** A run records the request exactly when it sends the reply, which is then its fourth and
      last effect, after the delete of the working notice; any other run leaves the store as it
      was. */
  lemma RecordsIffReplies(entries: map<ChatId, LastRequest>, chatId: ChatId, kind: string, thought: string, now: int,
                          working: Option<MessageId>, produced: Result<Notice, GenerationError>)
    ensures working.Some? && produced.Success? <==>
              produced.Success? && |RunEffects(chatId, kind, thought, working, produced)| == 4
              && RunEffects(chatId, kind, thought, working, produced)[3] == Send(chatId, produced.value)
    ensures !(working.Some? && produced.Success?) ==>
              RunStore(entries, chatId, kind, thought, now, working, produced) == entries
    ensures working.Some? && produced.Success? ==>
              Lookup(RunStore(entries, chatId, kind, thought, now, working, produced), chatId, now)
                == Some(LastRequest(kind, thought, now))
  {
    if working.Some? && produced.Success? {
      assert RunEffects(chatId, kind, thought, working, produced)[3] == Send(chatId, produced.value);
    }
  }

  /** Every request the handlers record has a non-empty thought, so /regenerate never trips
      the input guard of `generateTweet`. */
  lemma RegenerateInputIsValid(entries: map<ChatId, LastRequest>, chatId: ChatId, now: int, call: ApiCall)
    requires WellFormedStore(entries)
    requires Lookup(entries, chatId, now).Some?
    ensures Produce(Lookup(entries, chatId, now).value.kind, Lookup(entries, chatId, now).value.thought, call)
            != Failure(InvalidInput)
  {
  }

  /** The end-to-end run: `/tweet <thought>` records the thought, and a `/regenerate` a
      second later calls the tweet generator again with the same thought, sends the same reply
      and re-records the request at the new time. */
  method TweetThenRegenerate(thought: string, reply: string) returns (log: seq<Effect>, entries: map<ChatId, LastRequest>)
    requires |thought| > 0 && forall k :: 0 <= k < |thought| ==> !IsLineTerminator(thought[k])
    ensures var run := [Send(7, Working(TweetKind)), CallGenerator(TweetKind, thought), Delete(7, 1),
                        Send(7, TweetReply(Some(reply)))];
            log == run + run
    ensures entries == map[7 := LastRequest(TweetKind, thought, 2500)]
  {
    var store := new LastRequestStore();
    var bot := new Bot(store);
    var ok := Transport(Some(1), true, Some(2));
    var call := Returned(Completion(Some([Choice(Some(ChatMessage(Some(reply))))])));
    var notice := TweetReply(Some(reply));
    var text := TweetCommand + thought;
    TweetScenario(thought, reply, call);
    SuccessfulRun(map[], 7, TweetKind, thought, 1000, 1, notice);
    bot.OnTweet(text, 7, 1000, ok, call);
    ghost var first := bot.effects;
    assert store.entries == map[7 := LastRequest(TweetKind, thought, 1000)];
    SuccessfulRun(store.entries, 7, TweetKind, thought, 2500, 1, notice);
    bot.OnRegenerate(RegenerateCommand, 7, 2000, 2500, ok, call);
    assert bot.effects == first + first;
    assert store.entries == map[7 := LastRequest(TweetKind, thought, 2500)];
    log := bot.effects;
    entries := store.entries;
  }

  /** The facts about the scenario's inputs: the message carries the thought as payload, the
      word `/regenerate` is mentioned, and the answer gives the reply. */
  lemma TweetScenario(thought: string, reply: string, call: ApiCall)
    requires |thought| > 0 && forall k :: 0 <= k < |thought| ==> !IsLineTerminator(thought[k])
    requires call == Returned(Completion(Some([Choice(Some(ChatMessage(Some(reply))))])))
    ensures Payload(TweetCommand, TweetCommand + thought) == Some(thought)
    ensures Mentions(RegenerateCommand, RegenerateCommand)
    ensures Produce(TweetKind, thought, call) == Success(TweetReply(Some(reply)))
  {
    LeadingCommand(TweetCommand, thought, "");
    assert TweetCommand + thought + "" == TweetCommand + thought;
    assert OccursAt(RegenerateCommand, RegenerateCommand, 0);
  }

  /** A run whose working notice was sent as message `msg` and whose generation succeeded. */
  lemma SuccessfulRun(entries: map<ChatId, LastRequest>, chatId: ChatId, kind: string, thought: string,
                      now: int, msg: MessageId, notice: Notice)
    ensures RunEffects(chatId, kind, thought, Some(msg), Success(notice))
              == [Send(chatId, Working(kind)), CallGenerator(kind, thought), Delete(chatId, msg), Send(chatId, notice)]
    ensures RunStore(entries, chatId, kind, thought, now, Some(msg), Success(notice))
              == entries[chatId := LastRequest(kind, thought, now)]
    ensures Lookup(entries[chatId := LastRequest(kind, thought, now)], chatId, now + 1000)
              == Some(LastRequest(kind, thought, now))
  {
  }
}
