/**
 * The translation feature: chat lines and NPC dialogues are sent to an
 * external translator with their formatting codes wrapped, and the answer is
 * unwrapped and shown (or posted again as a translated dialogue).
 *
 * The translator is asynchronous. Each handler is split here into what it
 * does when the event arrives (a method on the feature, which may cancel the
 * event and returns the request it dispatches or the event it posts) and what
 * its callback does with the translator's answer (a function of that answer).
 * The translator itself, the event bus and the hop onto the main thread are
 * not part of this model.
 */
module Translation {
  import opened Wrappers
  import opened ChatEvents
  import opened FormattingCodes

  /** The feature's configuration fields that the handlers read. */
  datatype TranslationConfig = TranslationConfig(
    languageName: string,
    translateNpc: bool,
    translateInfo: bool,
    translatePlayerChat: bool,
    keepOriginal: bool)

  /** The configuration a fresh feature starts with. */
  const DefaultConfig: TranslationConfig := TranslationConfig("", true, true, false, true)

  /** One call of the translator: the lines to translate, in order, and the target language. */
  datatype TranslationRequest = TranslationRequest(lines: seq<string>, language: string)

  /**
   * What the translator promises to answer: one string per requested line in
   * the same order, or an empty list when translation failed.
   */
  predicate ConformingOutcome(request: TranslationRequest, outcome: seq<string>) {
    outcome == [] || |outcome| == |request.lines|
  }

  // ---------------------------------------------------------------------------
  // Chat lines

  /** What the chat handler does when a line arrives. */
  datatype ChatDispatch = ChatDispatch(cancel: bool, request: Option<TranslationRequest>)

  /**
   * The chat handler's decision. A line is translated only when its
   * recipient's scope is enabled (INFO lines by translateInfo, every other
   * line by translatePlayerChat); the request is the one wrapped line. The
   * line is cancelled exactly when it is translated and the original is not
   * to be kept; the translator's answer plays no part in that.
   */
  function ChatDecision(config: TranslationConfig, recipient: RecipientType, codedMessage: string): (d: ChatDispatch)
    ensures d.request.Some? <==>
              (recipient == Info && config.translateInfo) || (recipient != Info && config.translatePlayerChat)
    ensures d.request.Some? ==>
              d.request.value == TranslationRequest([Wrap(codedMessage)], config.languageName)
    ensures d.cancel <==> d.request.Some? && !config.keepOriginal
  {
    if recipient != Info && !config.translatePlayerChat then ChatDispatch(false, None)
    else if recipient == Info && !config.translateInfo then ChatDispatch(false, None)
    else ChatDispatch(!config.keepOriginal, Some(TranslationRequest([Wrap(codedMessage)], config.languageName)))
  }

  /**
   * What the chat callback shows for the translator's answer: the first
   * translated string, unwrapped; on failure nothing when the original is
   * kept, and otherwise the original coded line itself (not its wrapped form).
   * `keepOriginal` is the value of the setting when the callback runs.
   */
  function ChatReply(keepOriginal: bool, origCoded: string, outcome: seq<string>): (r: Option<string>)
    ensures outcome != [] ==> r == Some(Unwrap(outcome[0]))
    ensures outcome == [] && keepOriginal ==> r == None
    ensures outcome == [] && !keepOriginal ==> r == Some(origCoded)
  {
    if outcome != [] then Some(Unwrap(outcome[0]))
    else if keepOriginal then None
    else Some(origCoded)
  }

  /**
   * End to end with a translator that answers with its input: a line without
   * `{` is shown exactly as it arrived.
   */
  lemma ChatIdentityTranslation(config: TranslationConfig, recipient: RecipientType, codedMessage: string)
    requires NoOpenBrace(codedMessage)
    ensures var d := ChatDecision(config, recipient, codedMessage);
            d.request.Some? ==> ChatReply(config.keepOriginal, codedMessage, d.request.value.lines) == Some(codedMessage)
  {
    UnwrapWrap(codedMessage);
  }

  /**
   * A cancelled line is never lost: when the setting has not changed by the
   * time the callback runs, a line that was cancelled is replaced by
   * something, whatever the translator answers.
   */
  lemma CancelledChatIsReplaced(config: TranslationConfig, recipient: RecipientType,
                                codedMessage: string, outcome: seq<string>)
    requires ChatDecision(config, recipient, codedMessage).cancel
    ensures ChatReply(config.keepOriginal, codedMessage, outcome).Some?
  {
  }

  // ---------------------------------------------------------------------------
  // NPC dialogues

  /**
   * The content of a dialogue event: its lines, its kind, whether it is
   * protected, and whether it is one the feature posted itself (an instance of
   * the source's TranslatedNpcDialogEvent subclass).
   */
  datatype Dialogue = Dialogue(lines: seq<Component>, dialogueType: NpcDialogueType, isProtected: bool,
                               isTranslated: bool)

  /**
   * What the dialogue handler does: nothing, post a translated dialogue at
   * once, or dispatch a translation whose callback posts one.
   */
  datatype NpcEffect =
    | NoEffect
    | Post(translated: Dialogue)
    | Translate(request: TranslationRequest, dialogueType: NpcDialogueType, isProtected: bool)

  datatype NpcDispatch = NpcDispatch(cancel: bool, effect: NpcEffect)

  /** The coded form of every line, wrapped, in the original order. */
  function WrapLines(lines: seq<Component>): (r: seq<string>)
    ensures |r| == |lines|
    ensures forall i :: 0 <= i < |lines| ==> r[i] == Wrap(lines[i].coded)
  {
    if lines == [] then [] else [Wrap(lines[0].coded)] + WrapLines(lines[1..])
  }

  /**
   * The dialogue handler's decision. It does nothing (and cancels nothing)
   * when NPC translation is off or when the event is one it posted itself.
   * Otherwise an empty dialogue, the signal that clears the dialogue, is
   * posted again at once as an empty translated dialogue, and a non-empty one
   * is sent as one batch of wrapped lines; in both cases the event is
   * cancelled exactly when the original is not to be kept.
   */
  function NpcDecision(config: TranslationConfig, dialogue: Dialogue): (r: NpcDispatch)
    ensures !config.translateNpc || dialogue.isTranslated ==> r == NpcDispatch(false, NoEffect)
    ensures config.translateNpc && !dialogue.isTranslated ==> r.cancel == !config.keepOriginal
    ensures config.translateNpc && !dialogue.isTranslated && dialogue.lines == [] ==>
              r.effect == Post(Dialogue([], dialogue.dialogueType, dialogue.isProtected, true))
    ensures config.translateNpc && !dialogue.isTranslated && dialogue.lines != [] ==>
              r.effect.Translate? &&
              r.effect.request.language == config.languageName &&
              |r.effect.request.lines| == |dialogue.lines| &&
              (forall i :: 0 <= i < |dialogue.lines| ==> r.effect.request.lines[i] == Wrap(dialogue.lines[i].coded)) &&
              r.effect.dialogueType == dialogue.dialogueType &&
              r.effect.isProtected == dialogue.isProtected
  {
    if !config.translateNpc || dialogue.isTranslated then NpcDispatch(false, NoEffect)
    else if dialogue.lines != [] then
      NpcDispatch(!config.keepOriginal,
                  Translate(TranslationRequest(WrapLines(dialogue.lines), config.languageName),
                            dialogue.dialogueType, dialogue.isProtected))
    else
      NpcDispatch(!config.keepOriginal, Post(Dialogue([], dialogue.dialogueType, dialogue.isProtected, true)))
  }

  /** Every translated string, unwrapped, in order. */
  function UnwrapLines(translated: seq<string>): (r: seq<string>)
    ensures |r| == |translated|
    ensures forall i :: 0 <= i < |translated| ==> r[i] == Unwrap(translated[i])
  {
    if translated == [] then [] else [Unwrap(translated[0])] + UnwrapLines(translated[1..])
  }

  /**
   * A literal component per line, holding the line with its formatting
   * stripped. `stripFormatting` is the host's function, which this model does
   * not define.
   */
  function LiteralComponents(lines: seq<string>, stripFormatting: string -> string): (r: seq<Component>)
    ensures |r| == |lines|
    ensures forall i :: 0 <= i < |lines| ==> r[i] == Component(stripFormatting(lines[i]))
  {
    if lines == [] then [] else [Component(stripFormatting(lines[0]))] + LiteralComponents(lines[1..], stripFormatting)
  }

  /**
   * The dialogue the callback posts for the translator's answer: exactly one
   * component per returned string, in order, with the original kind and
   * protection, tagged as posted by the feature. A failed (empty) answer posts
   * an empty dialogue; there is no fallback to the original lines.
   */
  function NpcReply(dialogueType: NpcDialogueType, isProtected: bool, outcome: seq<string>,
                    stripFormatting: string -> string): (d: Dialogue)
    ensures |d.lines| == |outcome|
    ensures forall i :: 0 <= i < |outcome| ==> d.lines[i] == Component(stripFormatting(Unwrap(outcome[i])))
    ensures d.dialogueType == dialogueType && d.isProtected == isProtected && d.isTranslated
  {
    Dialogue(LiteralComponents(UnwrapLines(outcome), stripFormatting), dialogueType, isProtected, true)
  }

  /**
   * With a translator that conforms and succeeds, the posted dialogue has as
   * many lines as the original one.
   */
  lemma NpcReplyKeepsLineCount(config: TranslationConfig, dialogue: Dialogue, outcome: seq<string>,
                               stripFormatting: string -> string)
    requires config.translateNpc && !dialogue.isTranslated && dialogue.lines != []
    requires var r := NpcDecision(config, dialogue);
             ConformingOutcome(r.effect.request, outcome) && outcome != []
    ensures |NpcReply(dialogue.dialogueType, dialogue.isProtected, outcome, stripFormatting).lines| == |dialogue.lines|
  {
  }

  /**
   * End to end with a translator that answers with its input: every line of a
   * dialogue without `{` comes back in place with only its formatting stripped.
   */
  lemma NpcIdentityTranslation(config: TranslationConfig, dialogue: Dialogue, stripFormatting: string -> string)
    requires config.translateNpc && !dialogue.isTranslated && dialogue.lines != []
    requires forall i :: 0 <= i < |dialogue.lines| ==> NoOpenBrace(dialogue.lines[i].coded)
    ensures var r := NpcDecision(config, dialogue);
            var posted := NpcReply(r.effect.dialogueType, r.effect.isProtected, r.effect.request.lines, stripFormatting);
            posted.dialogueType == dialogue.dialogueType && posted.isProtected == dialogue.isProtected &&
            |posted.lines| == |dialogue.lines| &&
            forall i :: 0 <= i < |dialogue.lines| ==>
              posted.lines[i] == Component(stripFormatting(dialogue.lines[i].coded))
  {
    var r := NpcDecision(config, dialogue);
    var posted := NpcReply(r.effect.dialogueType, r.effect.isProtected, r.effect.request.lines, stripFormatting);
    forall i | 0 <= i < |dialogue.lines|
      ensures posted.lines[i] == Component(stripFormatting(dialogue.lines[i].coded))
    {
      UnwrapWrap(dialogue.lines[i].coded);
    }
  }

  /**
   * The re-entrancy guard: a dialogue the feature posts, at once or from the
   * callback, carries the tag, so delivered back to the same handler it has
   * no effect and is not cancelled, whatever the settings are by then.
   */
  lemma PostedDialogueIsIgnored(config: TranslationConfig, later: TranslationConfig, dialogue: Dialogue,
                                outcome: seq<string>, stripFormatting: string -> string)
    ensures var r := NpcDecision(config, dialogue);
            r.effect.Post? ==>
              r.effect.translated.isTranslated &&
              NpcDecision(later, r.effect.translated) == NpcDispatch(false, NoEffect)
    ensures var r := NpcDecision(config, dialogue);
            r.effect.Translate? ==>
              var posted := NpcReply(r.effect.dialogueType, r.effect.isProtected, outcome, stripFormatting);
              posted.isTranslated && NpcDecision(later, posted) == NpcDispatch(false, NoEffect)
  {
  }

  /**
   * The event that posting a dialogue creates: a fresh, uncancelled
   * NpcDialogEvent with the dialogue's lines, kind, protection and tag, as the
   * TranslatedNpcDialogEvent constructor builds it.
   */
  method PostedEvent(d: Dialogue) returns (ev: NpcDialogEvent)
    ensures fresh(ev) && !ev.canceled
    ensures ev.chatMessage == d.lines && ev.dialogueType == d.dialogueType
    ensures ev.isProtected == d.isProtected && ev.isTranslated == d.isTranslated
  {
    ev := new NpcDialogEvent(d.lines, d.dialogueType, d.isProtected, d.isTranslated);
  }

  // ---------------------------------------------------------------------------
  // The feature

  /** The feature object; its configuration fields are set by the host's configuration system. */
  class TranslationFeature {
    var languageName: string
    var translateNpc: bool
    var translateInfo: bool
    var translatePlayerChat: bool
    var keepOriginal: bool

    constructor ()
      ensures Config() == DefaultConfig
    {
      languageName := "";
      translateNpc := true;
      translateInfo := true;
      translatePlayerChat := false;
      keepOriginal := true;
    }

    function Config(): TranslationConfig
      reads this
    {
      TranslationConfig(languageName, translateNpc, translateInfo, translatePlayerChat, keepOriginal)
    }

    /**
     * The chat handler: returns the request it dispatches, if any, and cancels
     * the line as ChatDecision says. It only ever sets the cancel flag.
     */
    method OnChat(e: ChatMessageReceivedEvent) returns (request: Option<TranslationRequest>)
      modifies e
      ensures request == ChatDecision(Config(), e.recipientType, e.codedMessage).request
      ensures e.canceled == (old(e.canceled) || ChatDecision(Config(), e.recipientType, e.codedMessage).cancel)
    {
      if e.recipientType != Info && !translatePlayerChat {
        return None;
      }
      if e.recipientType == Info && !translateInfo {
        return None;
      }
      var origCoded := e.codedMessage;
      var wrapped := Wrap(origCoded);
      request := Some(TranslationRequest([wrapped], languageName));
      if !keepOriginal {
        e.canceled := true;
      }
    }

    /**
     * The chat callback: the message to show for the translator's answer to
     * `origCoded`, if any. It reads `keepOriginal` when it runs, not when the
     * line was dispatched.
     */
    method OnChatTranslated(origCoded: string, translatedMsgList: seq<string>) returns (messageToSend: Option<string>)
      ensures messageToSend == ChatReply(keepOriginal, origCoded, translatedMsgList)
    {
      if translatedMsgList != [] {
        var result := translatedMsgList[0];
        messageToSend := Some(Unwrap(result));
      } else {
        if keepOriginal {
          return None;
        }
        messageToSend := Some(origCoded);
      }
    }

    /**
     * The re-entrancy guard at the level of events: the dialogue that the
     * callback posts for any answer, delivered back to the handler, has no
     * effect and stays uncancelled.
     */
    method DeliverReply(dialogueType: NpcDialogueType, isProtected: bool, outcome: seq<string>,
                        stripFormatting: string -> string) returns (ev: NpcDialogEvent, effect: NpcEffect)
      ensures ev.isTranslated && effect == NoEffect && !ev.canceled
    {
      ev := PostedEvent(NpcReply(dialogueType, isProtected, outcome, stripFormatting));
      effect := OnNpcDialogue(ev);
    }

    /**
     * The dialogue handler: returns what it posts or dispatches, and cancels
     * the dialogue as NpcDecision says. It only ever sets the cancel flag.
     */
    method OnNpcDialogue(e: NpcDialogEvent) returns (effect: NpcEffect)
      modifies e
      ensures var r := NpcDecision(Config(), Dialogue(e.chatMessage, e.dialogueType, e.isProtected, e.isTranslated));
              effect == r.effect && e.canceled == (old(e.canceled) || r.cancel)
    {
      if !translateNpc {
        return NoEffect;
      }
      if e.isTranslated {
        return NoEffect;
      }
      if e.chatMessage != [] {
        var wrapped := WrapLines(e.chatMessage);
        effect := Translate(TranslationRequest(wrapped, languageName), e.dialogueType, e.isProtected);
      } else {
        effect := Post(Dialogue([], e.dialogueType, e.isProtected, true));
      }
      if !keepOriginal {
        e.canceled := true;
      }
    }
  }
}
