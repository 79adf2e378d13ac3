/**
 * The message filter: four groups of patterns, each switched on by a toggle,
 * decide whether a received chat line is hidden. Only the first enabled
 * group, in the fixed order welcome, system info, level up, party finder, is
 * consulted; a pattern pair holds one pattern per delivery channel, either of
 * which may be absent.
 */
module MessageFilter {
  import opened Wrappers
  import opened ChatEvents
  import opened Patterns

  /** A pair of (foreground, background) patterns; `None` stands for the source's `null`. */
  datatype PatternPair = PatternPair(foreground: Option<Pattern>, background: Option<Pattern>)

  // In the pattern texts below, `\U{00A7}` is the formatting-code marker.

  const Welcome: seq<PatternPair> := [
    PatternPair(Some(WholeLine("\U{00A7}7Loading Resource Pack...")), None),
    PatternPair(Some(WholeLine("\U{00A7}6Thank you for using the WynnPack. Enjoy the game!")), None),
    PatternPair(Some(WholeLine("\U{00A7}cSelect a character! Each character is saved individually across all servers, you can come back at any time with /class and select another character!")), None),
    PatternPair(Some(IndentedLine("\U{00A7}6\U{00A7}lWelcome to Wynncraft!")), None),
    PatternPair(Some(IndentedLine("\U{00A7}fplay.wynncraft.com \U{00A7}7-/-\U{00A7}f wynncraft.com")), None)
  ]

  const SystemInfo: seq<PatternPair> := [
    PatternPair(Some(TaggedLine("\U{00A7}r", true, "[Info] ")), Some(TaggedLine("\U{00A7}r\U{00A7}8", false, "[Info] ")))
  ]

  const LevelUp: seq<PatternPair> := [
    PatternPair(
      Some(Regex("^\U{00A7}6.* is now (?:combat )?level .*(?: in \U{00A7}.*)?$")),
      Some(Regex("^(?:\U{00A7}r\U{00A7}8)?.* is now (?:combat )?level .*(?: in \U{00A7}.*)?$"))),
    PatternPair(
      Some(Regex("^\U{00A7}8\\[\U{00A7}r\U{00A7}7!\U{00A7}r\U{00A7}8\\] \U{00A7}r\U{00A7}7Congratulations to \U{00A7}r.* for reaching (combat )?\U{00A7}r\U{00A7}flevel .*!$")),
      Some(Regex("^(\U{00A7}r\U{00A7}8)?\\[!\\] Congratulations to \U{00A7}r.* for reaching (combat )?\U{00A7}r\U{00A7}7level .*!$")))
  ]

  const PartyFinder: seq<PatternPair> := [
    PatternPair(
      Some(Regex("^\U{00A7}5Party Finder:\U{00A7}r\U{00A7}d Hey [a-zA-Z0-9_]{2,16}, over here! Join the (?:[a-zA-Z'\U{00A7} ]+) queue and match up with \U{00A7}r\U{00A7}e\\d+ other players\U{00A7}r\U{00A7}d!$")),
      None)
  ]

  /**
   * The pattern for the channel a line arrived through. An absent pattern
   * stays absent: there is no fallback to the other channel's pattern.
   */
  function GetPattern(p: PatternPair, messageType: MessageType): (r: Option<Pattern>)
    ensures messageType == Foreground ==> r == p.foreground
    ensures messageType == Background ==> r == p.background
  {
    match messageType
    case Foreground => p.foreground
    case Background => p.background
  }

  /** A pair matches a line when its pattern for the line's channel is present and finds a match. */
  predicate PairMatches(p: PatternPair, messageType: MessageType, msg: string, engine: RegexEngine) {
    match GetPattern(p, messageType)
    case None => false
    case Some(pattern) => Find(pattern, engine, msg)
  }

  /** Some pair of the table matches the line. */
  predicate TableMatches(table: seq<PatternPair>, messageType: MessageType, msg: string, engine: RegexEngine) {
    exists i :: 0 <= i < |table| && PairMatches(table[i], messageType, msg, engine)
  }

  /** A table whose pairs have no background pattern never matches a background line. */
  lemma ForegroundOnlyTable(table: seq<PatternPair>, msg: string, engine: RegexEngine)
    requires forall i :: 0 <= i < |table| ==> table[i].background == None
    ensures !TableMatches(table, Background, msg, engine)
  {
    forall i | 0 <= i < |table|
      ensures !PairMatches(table[i], Background, msg, engine)
    {
      assert GetPattern(table[i], Background) == None;
    }
  }

  /** The welcome and party-finder tables never hide a background line. */
  lemma WelcomeAndPartyFinderIgnoreBackground(msg: string, engine: RegexEngine)
    ensures !TableMatches(Welcome, Background, msg, engine)
    ensures !TableMatches(PartyFinder, Background, msg, engine)
  {
    ForegroundOnlyTable(Welcome, msg, engine);
    ForegroundOnlyTable(PartyFinder, msg, engine);
  }

  /** No pair of the table lacks both patterns. */
  predicate EveryPairHasAPattern(table: seq<PatternPair>) {
    forall i :: 0 <= i < |table| ==> table[i].foreground.Some? || table[i].background.Some?
  }

  /** Every pair of every table has at least one pattern. */
  lemma TablesHaveAPatternPerPair()
    ensures EveryPairHasAPattern(Welcome) && EveryPairHasAPattern(SystemInfo)
    ensures EveryPairHasAPattern(LevelUp) && EveryPairHasAPattern(PartyFinder)
  {
  }

  // ---------------------------------------------------------------------------
  // The groups and their toggles

  datatype FilterGroup = WelcomeGroup | SystemInfoGroup | LevelUpGroup | PartyFinderGroup

  function GroupTable(g: FilterGroup): seq<PatternPair> {
    match g
    case WelcomeGroup => Welcome
    case SystemInfoGroup => SystemInfo
    case LevelUpGroup => LevelUp
    case PartyFinderGroup => PartyFinder
  }

  /** The position of a group in the order in which the toggles are consulted. */
  function Rank(g: FilterGroup): nat {
    match g
    case WelcomeGroup => 0
    case SystemInfoGroup => 1
    case LevelUpGroup => 2
    case PartyFinderGroup => 3
  }

  datatype FilterToggles = FilterToggles(hideWelcome: bool, hideSystemInfo: bool, hideLevelUp: bool, hidePartyFinder: bool)

  /** Only system-info lines are hidden by default. */
  const DefaultToggles: FilterToggles := FilterToggles(false, true, false, false)

  predicate Enabled(t: FilterToggles, g: FilterGroup) {
    match g
    case WelcomeGroup => t.hideWelcome
    case SystemInfoGroup => t.hideSystemInfo
    case LevelUpGroup => t.hideLevelUp
    case PartyFinderGroup => t.hidePartyFinder
  }

  /** The group that is consulted: the enabled one that comes first, if any. */
  function FirstEnabled(t: FilterToggles): (r: Option<FilterGroup>)
    ensures r.Some? ==> Enabled(t, r.value) && forall g :: Rank(g) < Rank(r.value) ==> !Enabled(t, g)
    ensures r.None? ==> forall g :: !Enabled(t, g)
  {
    if t.hideWelcome then Some(WelcomeGroup)
    else if t.hideSystemInfo then Some(SystemInfoGroup)
    else if t.hideLevelUp then Some(LevelUpGroup)
    else if t.hidePartyFinder then Some(PartyFinderGroup)
    else None
  }

  /**
   * The new cancel state of a line: `None` when no toggle is on (the state is
   * left as it was), otherwise whether the first enabled group's table matches.
   */
  function FilterVerdict(t: FilterToggles, msg: string, messageType: MessageType, engine: RegexEngine): (r: Option<bool>)
    ensures r.None? <==> forall g :: !Enabled(t, g)
    ensures r == Some(true) ==> exists g :: Enabled(t, g) && TableMatches(GroupTable(g), messageType, msg, engine)
  {
    match FirstEnabled(t)
    case None => None
    case Some(g) => Some(TableMatches(GroupTable(g), messageType, msg, engine))
  }

  /**
   * The priority policy: once an enabled group fails to match, the line is
   * not hidden, even if a later enabled group would match it.
   */
  lemma FirstEnabledGroupDecides(t: FilterToggles, g: FilterGroup, msg: string, messageType: MessageType,
                                 engine: RegexEngine)
    requires Enabled(t, g)
    requires forall h :: Rank(h) <= Rank(g) && Enabled(t, h) ==> !TableMatches(GroupTable(h), messageType, msg, engine)
    ensures FilterVerdict(t, msg, messageType, engine) == Some(false)
  {
    var first := FirstEnabled(t).value;
    assert Rank(first) <= Rank(g);
  }

  /** Toggles after the first enabled group make no difference. */
  lemma LaterTogglesIgnored(t: FilterToggles, u: FilterToggles, g: FilterGroup, msg: string,
                            messageType: MessageType, engine: RegexEngine)
    requires FirstEnabled(t) == Some(g)
    requires forall h :: Rank(h) <= Rank(g) ==> Enabled(u, h) == Enabled(t, h)
    ensures FilterVerdict(u, msg, messageType, engine) == FilterVerdict(t, msg, messageType, engine)
  {
    assert Enabled(u, g);
    var first := FirstEnabled(u).value;
    assert Rank(first) <= Rank(g);
    assert first == g;
  }

  /** With the default toggles only the system-info table is ever consulted. */
  lemma DefaultsConsultSystemInfoOnly(msg: string, messageType: MessageType, engine: RegexEngine)
    ensures FilterVerdict(DefaultToggles, msg, messageType, engine) == Some(TableMatches(SystemInfo, messageType, msg, engine))
  {
  }

  /** With the welcome group on, the resource-pack notice is hidden. */
  lemma ResourcePackNoticeHidden(t: FilterToggles, engine: RegexEngine)
    requires t.hideWelcome
    ensures FilterVerdict(t, "\U{00A7}7Loading Resource Pack...", Foreground, engine) == Some(true)
  {
    WholeLineFindsItsText("\U{00A7}7Loading Resource Pack...", engine);
    assert PairMatches(Welcome[0], Foreground, "\U{00A7}7Loading Resource Pack...", engine);
  }

  /** With the system-info group first, a background info line is hidden. */
  lemma BackgroundInfoLineHidden(t: FilterToggles, engine: RegexEngine)
    requires !t.hideWelcome && t.hideSystemInfo
    ensures FilterVerdict(t, "\U{00A7}r\U{00A7}8" + "[Info] " + "server restarting", Background, engine) == Some(true)
  {
    var msg := "\U{00A7}r\U{00A7}8" + "[Info] " + "server restarting";
    TaggedLineFindsUntaggedBody("\U{00A7}r\U{00A7}8", "[Info] ", "server restarting", engine);
    assert PairMatches(SystemInfo[0], Background, msg, engine);
  }

  /**
   * Without a fallback between channels, the welcome group leaves the
   * resource-pack notice alone when it arrives in the background; with the
   * fallback that the doc comment of `getPattern` describes, it would be hidden.
   */
  lemma BackgroundResourcePackNoticeKept(t: FilterToggles, engine: RegexEngine)
    requires t.hideWelcome
    ensures FilterVerdict(t, "\U{00A7}7Loading Resource Pack...", Background, engine) == Some(false)
  {
    ForegroundOnlyTable(Welcome, "\U{00A7}7Loading Resource Pack...", engine);
  }

  /**
   * The same info line is not hidden when the welcome group is on as well:
   * that group comes first and has no background patterns.
   */
  lemma WelcomeShadowsSystemInfo(t: FilterToggles, engine: RegexEngine)
    requires t.hideWelcome && t.hideSystemInfo
    ensures FilterVerdict(t, "\U{00A7}r\U{00A7}8[Info] server restarting", Background, engine) == Some(false)
  {
    ForegroundOnlyTable(Welcome, "\U{00A7}r\U{00A7}8[Info] server restarting", engine);
  }

  // ---------------------------------------------------------------------------
  // The feature

  /** The feature object; its toggles are set by the host's configuration system. */
  class MessageFilterFeature {
    var hideWelcome: bool
    var hideSystemInfo: bool
    var hideLevelUp: bool
    var hidePartyFinder: bool
    /** How `Pattern.matcher(...).find()` answers for the patterns kept as regex source. */
    const engine: RegexEngine

    constructor (engine: RegexEngine)
      ensures Toggles() == DefaultToggles && this.engine == engine
    {
      hideWelcome := false;
      hideSystemInfo := true;
      hideLevelUp := false;
      hidePartyFinder := false;
      this.engine := engine;
    }

    function Toggles(): FilterToggles
      reads this
    {
      FilterToggles(hideWelcome, hideSystemInfo, hideLevelUp, hidePartyFinder)
    }

    /**
     * Whether some pair of `patternMap` has a pattern for the line's channel
     * that finds a match; pairs without one are skipped, and the scan stops at
     * the first match.
     */
    method ProcessFilter(msg: string, messageType: MessageType, patternMap: seq<PatternPair>) returns (found: bool)
      ensures found <==> TableMatches(patternMap, messageType, msg, engine)
    {
      for i := 0 to |patternMap|
        invariant forall k :: 0 <= k < i ==> !PairMatches(patternMap[k], messageType, msg, engine)
      {
        var pattern := GetPattern(patternMap[i], messageType);
        if pattern.None? {
          continue;
        }
        if Find(pattern.value, engine, msg) {
          return true;
        }
      }
      return false;
    }

    /**
     * The chat handler: the first enabled group's verdict overwrites the
     * cancel flag, also with `false`; with no toggle on the flag is untouched.
     */
    method OnMessage(e: ChatMessageReceivedEvent)
      modifies e
      ensures var v := FilterVerdict(Toggles(), e.originalCodedString, e.messageType, engine);
              e.canceled == if v.Some? then v.value else old(e.canceled)
    {
      var msg := e.originalCodedString;
      var messageType := e.messageType;

      if hideWelcome {
        e.canceled := ProcessFilter(msg, messageType, Welcome);
        return;
      }
      if hideSystemInfo {
        e.canceled := ProcessFilter(msg, messageType, SystemInfo);
        return;
      }
      if hideLevelUp {
        e.canceled := ProcessFilter(msg, messageType, LevelUp);
        return;
      }
      if hidePartyFinder {
        e.canceled := ProcessFilter(msg, messageType, PartyFinder);
        return;
      }
    }
  }
}
