/**
 * The host's chat events, as far as the two features use them. The event bus
 * that delivers them is not part of this model: the handlers are plain methods
 * called with an event, and what they would post or display is returned.
 */
module ChatEvents {

  /** Which of the two delivery channels a chat line arrived through. */
  datatype MessageType = Foreground | Background

  /**
   * Who a chat line is addressed to. Only INFO is told apart by the core; the
   * other recipient kinds of the host are carried by name.
   */
  datatype RecipientType = Info | OtherRecipient(name: string)

  /** A chat component, represented by the coded string the host renders for it. */
  datatype Component = Component(coded: string)

  /** The kind tag of an NPC dialogue; the core only carries it along. */
  datatype NpcDialogueType = NpcDialogueType(name: string)

  /** A received chat line. Handlers may cancel it, which hides it. */
  class ChatMessageReceivedEvent {
    const originalCodedString: string
    const codedMessage: string
    const messageType: MessageType
    const recipientType: RecipientType
    var canceled: bool

    constructor (originalCodedString: string, codedMessage: string,
                 messageType: MessageType, recipientType: RecipientType)
      ensures this.originalCodedString == originalCodedString
      ensures this.codedMessage == codedMessage
      ensures this.messageType == messageType
      ensures this.recipientType == recipientType
      ensures !canceled
    {
      this.originalCodedString := originalCodedString;
      this.codedMessage := codedMessage;
      this.messageType := messageType;
      this.recipientType := recipientType;
      canceled := false;
    }
  }

  /**
   * An NPC dialogue: an ordered batch of lines shown (or, when empty, cleared)
   * as one unit. `isTranslated` marks the instances that the translation
   * feature itself posts (the source's TranslatedNpcDialogEvent subclass).
   */
  class NpcDialogEvent {
    const chatMessage: seq<Component>
    const dialogueType: NpcDialogueType
    const isProtected: bool
    const isTranslated: bool
    var canceled: bool

    constructor (chatMessage: seq<Component>, dialogueType: NpcDialogueType,
                 isProtected: bool, isTranslated: bool)
      ensures this.chatMessage == chatMessage
      ensures this.dialogueType == dialogueType
      ensures this.isProtected == isProtected
      ensures this.isTranslated == isTranslated
      ensures !canceled
    {
      this.chatMessage := chatMessage;
      this.dialogueType := dialogueType;
      this.isProtected := isProtected;
      this.isTranslated := isTranslated;
      canceled := false;
    }
  }
}
