# Wynntils chat: translation and message filtering

A Dafny model of two chat features of the Wynntils Minecraft mod.

**The translation feature.** It sends chat lines and NPC dialogue lines to an
external translator. Before sending, it protects the Minecraft formatting codes
(`§` followed by one of `0-9 a-f k l m n o r`) by wrapping each one as `{§X}`.
It restores them in the answer, tolerating one stray space in each of three
places (`{ ?§ ?X ?}`). Each of its two event handlers first decides whether to
translate at all and whether to cancel (hide) the original. Then the
translator's callback decides what to show or post.

**The message filter.** It hides chat lines that match one of four groups of
patterns: welcome messages, system info, level-up announcements and
party-finder invitations. Each group has its own toggle, but only the first
enabled group is consulted. Each pattern pair holds a pattern for lines
received in the foreground and one for background lines, and either slot may
be empty.

Modules:

- `FormattingCodes` (formatting_codes.dfy): `Wrap` and `Unwrap`. Both are
  left-to-right scans replacing non-overlapping matches, which is how
  `String.replaceAll` behaves. Beside them are the round-trip lemma and the
  lemmas on length, code preservation and damaged tokens.
- `ChatEvents` (chat_events.dfy): the two host events, as classes with a
  mutable `canceled` flag.
- `Translation` (translation_feature.dfy): the pure decision and callback
  functions, and the `TranslationFeature` class whose handler methods cancel
  the event and return what they dispatch or post.
- `Patterns` (patterns.dfy): the meaning of the pattern shapes used by the
  welcome and system-info tables, under Java's default rules for `.` and `$`
  (no MULTILINE or UNIX_LINES flag), including that `$` never matches between
  the `\r` and the `\n` of a final `\r\n`.
- `MessageFilter` (message_filter_feature.dfy): the four tables, `GetPattern`,
  the priority chain, and the `MessageFilterFeature` class with
  `ProcessFilter` (the loop) and `OnMessage` (the if-chain).
- `Wrappers` (wrappers.dfy): `Option`.

The translator is asynchronous. Each handler is therefore split into two
parts:

- what happens when the event arrives: a method that may set `canceled` and
  returns the translation request or the event it posts;
- what the callback does with the translator's answer: a function of that
  answer.

The chat callback reads `keepOriginal` when it runs, not when the line was
dispatched, because the Java lambda reads the instance field.
`ChatReply` therefore takes that value as a parameter. `CancelledChatIsReplaced`
states the guarantee for the case where the setting did not change in between.

The doc comment of `getPattern` (MessageFilterFeature.java:103-106) says that
a missing pattern falls back to the other channel's pattern. The code has no
fallback. The model follows the code: `GetPattern` returns the empty slot. As a
consequence, `WelcomeAndPartyFinderIgnoreBackground` and
`BackgroundResourcePackNoticeKept` hold: with the documented fallback, the
resource-pack notice would be hidden in the background as well.

## Model

| member | source | states |
|---|---|---|
| FormattingCodes.Wrap | common/src/main/java/com/wynntils/features/TranslationFeature.java:115-117 | the scan of `wrapCoding`; its result is never shorter than the text and at most twice as long (each two-character code becomes four characters) |
| FormattingCodes.WrapLength | common/src/main/java/com/wynntils/features/TranslationFeature.java:115-117 | wrapping lengthens the text by exactly two characters per formatting code |
| FormattingCodes.WrapWithoutMarker | common/src/main/java/com/wynntils/features/TranslationFeature.java:115-117 | a text without `§` comes back from wrapping unchanged |
| FormattingCodes.WrapKeepsCodes | common/src/main/java/com/wynntils/features/TranslationFeature.java:115-117 | wrapping keeps the sequence of formatting codes exactly: none dropped, added or reordered |
| FormattingCodes.WrapHead | common/src/main/java/com/wynntils/features/TranslationFeature.java:116 | a wrapped text starts with the original first character or with `{` |
| FormattingCodes.WrapCode | common/src/main/java/com/wynntils/features/TranslationFeature.java:116 | a code `§X` in front becomes the token `{§X}` and the scan resumes after it |
| FormattingCodes.WrapWithoutMarkerThen | common/src/main/java/com/wynntils/features/TranslationFeature.java:116 | a prefix without `§` is copied verbatim and only the rest is rewritten |
| FormattingCodes.WrapBetween | common/src/main/java/com/wynntils/features/TranslationFeature.java:116 | a single code between marker-free texts becomes its token and nothing else changes |
| FormattingCodes.WrapGreeting | common/src/main/java/com/wynntils/features/TranslationFeature.java:116 | `Hello §aworld` wraps to `Hello {§a}world` |
| FormattingCodes.Unwrap | common/src/main/java/com/wynntils/features/TranslationFeature.java:111-113 | the scan of `unwrapCoding`; its result is never longer than the text. What it computes is pinned by `MatchToken`, `MatchTokenComplete`, `UnwrapToken`, `UnwrapLiteral` and the round trip `UnwrapWrap` |
| FormattingCodes.MatchToken | common/src/main/java/com/wynntils/features/TranslationFeature.java:112 | a found token is a well-formed token with a code character, and it is a prefix of the input |
| FormattingCodes.MatchTokenComplete | common/src/main/java/com/wynntils/features/TranslationFeature.java:112 | every token the input starts with is found, with its own spaces and code, so a failed match means there is none |
| FormattingCodes.UnwrapToken | common/src/main/java/com/wynntils/features/TranslationFeature.java:112 | a token with any of its three optional spaces filled becomes `§X` and the scan resumes after it |
| FormattingCodes.UnwrapLiteral | common/src/main/java/com/wynntils/features/TranslationFeature.java:112 | where no token starts (a `{` included), the character is copied and the scan moves one character on |
| FormattingCodes.UnwrapWithoutBraceThen | common/src/main/java/com/wynntils/features/TranslationFeature.java:112 | a prefix without `{` is copied verbatim and only the rest is rewritten |
| FormattingCodes.UnwrapWithoutBrace | common/src/main/java/com/wynntils/features/TranslationFeature.java:112 | a text without `{` comes back from unwrapping unchanged |
| FormattingCodes.UnwrapWrap | common/src/main/java/com/wynntils/features/TranslationFeature.java:111-117 | round trip: a text without `{` is restored exactly by unwrapping its wrapped form |
| FormattingCodes.WrapLeavesSpacedMarker | common/src/main/java/com/wynntils/features/TranslationFeature.java:116 | `{§ a}` holds no code, so wrapping leaves it unchanged (first half of why the round trip needs its hypothesis) |
| FormattingCodes.UnwrapReadsSpacedMarker | common/src/main/java/com/wynntils/features/TranslationFeature.java:112 | `{§ a}` unwraps to `§a`, so a text containing `{` need not survive the round trip |
| FormattingCodes.UnwrapBetween | common/src/main/java/com/wynntils/features/TranslationFeature.java:112 | a token with any spacing, between texts without `{`, becomes its code and nothing else changes |
| FormattingCodes.UnwrapTokenBeforeText | common/src/main/java/com/wynntils/features/TranslationFeature.java:112 | a token followed by a text without `{` becomes its code and the text is kept |
| FormattingCodes.UnwrapDamagedGreeting | common/src/main/java/com/wynntils/features/TranslationFeature.java:112 | `Hello { §a }world` is restored to `Hello §aworld` |
| FormattingCodes.UnwrapAllSlotsSpaced | common/src/main/java/com/wynntils/features/TranslationFeature.java:112 | `{ § a }`, with a space in every slot, becomes `§a` |
| FormattingCodes.UnwrapForeignCode | common/src/main/java/com/wynntils/features/TranslationFeature.java:112 | `{§x}` has a character outside the code alphabet and is left as literal text |
| FormattingCodes.UnwrapTwoSpaces | common/src/main/java/com/wynntils/features/TranslationFeature.java:112 | two spaces in one slot are not tolerated: `{  §a}` is left as it is |
| Translation.ChatDecision | common/src/main/java/com/wynntils/features/TranslationFeature.java:51-74 | translation is dispatched if and only if the line is INFO with translateInfo on, or is not INFO with translatePlayerChat on. The request is the one wrapped line in the configured language. The line is cancelled if and only if it is dispatched and keepOriginal is off |
| Translation.ChatReply | common/src/main/java/com/wynntils/features/TranslationFeature.java:58-69 | a non-empty answer shows the unwrapped first string only. An empty answer shows nothing when keepOriginal is on, and otherwise the original coded line, not wrapped |
| Translation.ChatIdentityTranslation | common/src/main/java/com/wynntils/features/TranslationFeature.java:55-69 | with a translator that echoes its input, a dispatched line without `{` is shown exactly as it arrived |
| Translation.CancelledChatIsReplaced | common/src/main/java/com/wynntils/features/TranslationFeature.java:58-73 | when keepOriginal has not changed before the callback, a cancelled line is always replaced by some message, whatever the translator answers |
| Translation.WrapLines | common/src/main/java/com/wynntils/features/TranslationFeature.java:82-84 | the wrapped coded form of every dialogue line, one per line and in order |
| Translation.NpcDecision | common/src/main/java/com/wynntils/features/TranslationFeature.java:76-109 | nothing happens, and nothing is cancelled, when translateNpc is off or the event is a translated one. Otherwise an empty dialogue is posted back at once as an empty translated dialogue, and a non-empty one is sent as one batch of wrapped lines in order, keeping the kind and protection. The posted dialogue carries the translated tag. Either way an eligible event is cancelled exactly when keepOriginal is off |
| Translation.UnwrapLines | common/src/main/java/com/wynntils/features/TranslationFeature.java:87-89 | one unwrapped string per translated string, in order |
| Translation.LiteralComponents | common/src/main/java/com/wynntils/features/TranslationFeature.java:92-94 | one literal component per string, in order, holding the string with its formatting stripped |
| Translation.NpcReply | common/src/main/java/com/wynntils/features/TranslationFeature.java:86-99 | the posted dialogue has exactly one component per returned string, in order, with the original kind and protection, and it carries the translated tag. An empty answer posts an empty dialogue, with no fallback to the original lines |
| Translation.NpcReplyKeepsLineCount | common/src/main/java/com/wynntils/features/TranslationFeature.java:81-99 | with a translator that answers every line, the posted dialogue has as many lines as the original |
| Translation.NpcIdentityTranslation | common/src/main/java/com/wynntils/features/TranslationFeature.java:81-99 | with an echoing translator, every line of a dialogue without `{` comes back in place with only its formatting stripped |
| Translation.PostedDialogueIsIgnored | common/src/main/java/com/wynntils/features/TranslationFeature.java:76-123 | re-entrancy guard: a dialogue the feature posts, either at once or from the callback, carries the translated tag, so it has no effect and is not cancelled when it reaches the handler again, whatever the settings are by then |
| Translation.PostedEvent | common/src/main/java/com/wynntils/features/TranslationFeature.java:96-104 | posting builds a fresh, uncancelled dialogue event with the posted dialogue's lines, kind, protection and translated tag, so `OnNpcDialogue` sees the tag |
| Translation.TranslationFeature.constructor | common/src/main/java/com/wynntils/features/TranslationFeature.java:29-45 | a fresh feature has the default settings: no language, NPC and info translation on, player chat off, originals kept |
| Translation.TranslationFeature.OnChat | common/src/main/java/com/wynntils/features/TranslationFeature.java:50-74 | returns the request that `ChatDecision` describes, and sets the cancel flag exactly when `ChatDecision` cancels, otherwise leaving it as it was |
| Translation.TranslationFeature.OnChatTranslated | common/src/main/java/com/wynntils/features/TranslationFeature.java:58-69 | the message sent is the one `ChatReply` chooses for the current keepOriginal |
| Translation.TranslationFeature.DeliverReply | common/src/main/java/com/wynntils/features/TranslationFeature.java:76-104 | the event posted from the callback, for any answer, carries the tag, and handing it back to the handler has no effect and leaves it uncancelled |
| Translation.TranslationFeature.OnNpcDialogue | common/src/main/java/com/wynntils/features/TranslationFeature.java:76-109 | returns the effect that `NpcDecision` describes, and sets the cancel flag exactly when `NpcDecision` cancels, otherwise leaving it as it was |
| ChatEvents.ChatMessageReceivedEvent.constructor | common/src/main/java/com/wynntils/features/chat/MessageFilterFeature.java:65-67 | a received line carries its coded text, channel and recipient, and starts uncancelled |
| ChatEvents.NpcDialogEvent.constructor | common/src/main/java/com/wynntils/features/TranslationFeature.java:119-123 | a dialogue carries its lines, kind, protection and whether the feature posted it, and starts uncancelled |
| Patterns.WholeLineFindsItsText | common/src/main/java/com/wynntils/features/chat/MessageFilterFeature.java:26-31 | an anchored literal line pattern finds its own text, and also that text followed by a final newline unless the text ends in `\r` |
| Patterns.CarriageReturnSplitsNoLine | common/src/main/java/com/wynntils/features/chat/MessageFilterFeature.java:26-31 | `$` does not match between `\r` and `\n`: the whole-line pattern for `a\r` finds nothing in `a\r\n` |
| Patterns.WholeLineRejectsMore | common/src/main/java/com/wynntils/features/chat/MessageFilterFeature.java:26-31 | an anchored literal line pattern finds nothing when anything but one final line terminator follows the text |
| Patterns.TaggedLineFindsUntaggedBody | common/src/main/java/com/wynntils/features/chat/MessageFilterFeature.java:36 | the background info pattern finds its prefix and `[Info] ` followed by any single line |
| MessageFilter.Welcome | common/src/main/java/com/wynntils/features/chat/MessageFilterFeature.java:25-33 | the five welcome patterns, all foreground only: three whole lines and two indented lines |
| MessageFilter.SystemInfo | common/src/main/java/com/wynntils/features/chat/MessageFilterFeature.java:35-36 | one pair: an info tag after any code, with an optional reset in front, in the foreground; the tag with an optional reset and dark-gray prefix in the background |
| MessageFilter.LevelUp | common/src/main/java/com/wynntils/features/chat/MessageFilterFeature.java:38-45 | two pairs of regex sources, one for each channel |
| MessageFilter.PartyFinder | common/src/main/java/com/wynntils/features/chat/MessageFilterFeature.java:47-50 | one foreground-only regex source |
| Patterns.Find | common/src/main/java/com/wynntils/features/chat/MessageFilterFeature.java:96 | whether `find()` of a pattern succeeds on a line: literal lines and info lines by the definitions above, any other regex by the engine parameter |
| MessageFilter.PairMatches | common/src/main/java/com/wynntils/features/chat/MessageFilterFeature.java:92-98 | a pair matches when its pattern for the line's channel is present and finds a match |
| MessageFilter.TableMatches | common/src/main/java/com/wynntils/features/chat/MessageFilterFeature.java:90-101 | some pair of the table matches the line; the meaning `ProcessFilter` is proved against |
| MessageFilter.GetPattern | common/src/main/java/com/wynntils/features/chat/MessageFilterFeature.java:107-112 | the foreground slot for foreground lines and the background slot for background lines, with no fallback when that slot is empty |
| MessageFilter.ForegroundOnlyTable | common/src/main/java/com/wynntils/features/chat/MessageFilterFeature.java:90-112 | a table without background patterns never matches a background line |
| MessageFilter.WelcomeAndPartyFinderIgnoreBackground | common/src/main/java/com/wynntils/features/chat/MessageFilterFeature.java:25-50 | the welcome and party-finder tables never hide a background line |
| MessageFilter.TablesHaveAPatternPerPair | common/src/main/java/com/wynntils/features/chat/MessageFilterFeature.java:25-50 | every pair in the four tables has at least one pattern |
| MessageFilter.FirstEnabled | common/src/main/java/com/wynntils/features/chat/MessageFilterFeature.java:69-87 | the consulted group is enabled and no group before it in the order welcome, system info, level up, party finder is enabled. When there is none, every group is disabled |
| MessageFilter.FilterVerdict | common/src/main/java/com/wynntils/features/chat/MessageFilterFeature.java:65-88 | the verdict of the priority chain: none exactly when every toggle is off, and a line is hidden only when some enabled group's table matches it |
| MessageFilter.FirstEnabledGroupDecides | common/src/main/java/com/wynntils/features/chat/MessageFilterFeature.java:69-87 | when the first enabled group does not match, the line is not hidden, even if a later enabled group would match it |
| MessageFilter.LaterTogglesIgnored | common/src/main/java/com/wynntils/features/chat/MessageFilterFeature.java:69-87 | toggles after the first enabled group make no difference to the verdict |
| MessageFilter.DefaultsConsultSystemInfoOnly | common/src/main/java/com/wynntils/features/chat/MessageFilterFeature.java:53-77 | with the default toggles, the verdict is exactly whether the system-info table matches |
| MessageFilter.ResourcePackNoticeHidden | common/src/main/java/com/wynntils/features/chat/MessageFilterFeature.java:26-72 | with hideWelcome on, the foreground resource-pack notice, gray code then `Loading Resource Pack...`, is hidden |
| MessageFilter.BackgroundInfoLineHidden | common/src/main/java/com/wynntils/features/chat/MessageFilterFeature.java:36-77 | with hideSystemInfo the first enabled toggle, the background line made of the reset and dark-gray codes, `[Info] ` and `server restarting` is hidden |
| MessageFilter.BackgroundResourcePackNoticeKept | common/src/main/java/com/wynntils/features/chat/MessageFilterFeature.java:25-72 | with hideWelcome on, the resource-pack notice arriving in the background is not hidden, because the welcome patterns have no background slot and there is no fallback |
| MessageFilter.WelcomeShadowsSystemInfo | common/src/main/java/com/wynntils/features/chat/MessageFilterFeature.java:25-72 | with hideWelcome on as well, that same background info line is not hidden, since only the welcome table is consulted |
| MessageFilter.MessageFilterFeature.constructor | common/src/main/java/com/wynntils/features/chat/MessageFilterFeature.java:52-62 | a fresh filter hides system info only |
| MessageFilter.MessageFilterFeature.ProcessFilter | common/src/main/java/com/wynntils/features/chat/MessageFilterFeature.java:90-101 | true if and only if some pair has a pattern for the line's channel that finds a match. Empty slots are skipped, and stopping at the first match gives the same answer |
| MessageFilter.MessageFilterFeature.OnMessage | common/src/main/java/com/wynntils/features/chat/MessageFilterFeature.java:64-88 | the first enabled group's verdict overwrites the cancel flag, with `false` too. With no toggle on, the flag is left as it was |

## Left out

- The translator and its network service (`Managers.Translation.getTranslator`, `TranslationManager`). A request is returned, and the answer is a parameter of the callback. `ConformingOutcome` states what the translator is expected to answer: one string per line, or nothing.
- The `translateTrackedQuest` and `translationService` settings. The first is never read by the handlers, and the second only picks a translator.
- The asynchronous callback and the `doRunTask` hop onto the main thread. What would be displayed or posted is returned instead.
- The event bus: `WynntilsMod.postEvent`, `@SubscribeEvent` priorities, the order between the two features, and whether cancelled events are delivered. A posted dialogue is returned as `Post`, and `PostedDialogueIsIgnored` states what happens if it is handed back.
- The configuration framework (`@Config`, `Config<Boolean>`). Settings are plain fields.
- Minecraft components, `ComponentUtils.getCoded` and `Component.literal`. A component is represented by its coded string.
- `ComponentUtils.stripFormatting`, which is not part of this model. It is a function parameter.
- `RecipientType` and `NpcDialogueType` are reduced to what the core uses: INFO versus any other recipient, and an opaque dialogue kind.
- The Java regex engine. The welcome patterns (anchored literal lines, some with leading spaces) and the system-info patterns are given a meaning in `Patterns`. The level-up and party-finder patterns are kept as their source text and are matched by a `RegexEngine` parameter.
- `CodedString` and `getMatcher`. The filter matches the plain coded string.
- common/src/main/java/com/wynntils/models/rewards/RewardsModel.java: it only wraps gear parsing, which is not part of this model.
