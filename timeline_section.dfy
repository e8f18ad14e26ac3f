/** The day's timeline: one card per event, alternating between the left and
    the right of the centre line (mirrored in right-to-left layout), with
    an icon chosen by name and a title and description looked up by the
    event's key. */
module TimelineSection {
  import opened Wrappers
  import opened Strings
  import opened Dictionary
  import opened Translations
  import opened LanguageContext

  // ---------------------------------------------------------------------------
  // Icons
  // ---------------------------------------------------------------------------

  datatype Icon = Heart | Wine | Utensils | Music | Sparkles

  /** `iconMap`: the icon components by name. */
  function IconMap(): map<string, Icon> {
    map["heart" := Heart, "wine" := Wine, "utensils" := Utensils, "music" := Music, "sparkles" := Sparkles]
  }

  /** `iconMap[name] || Heart`: the mapped icon, Heart for a name the map
      does not have. */
  function IconFor(name: string): (icon: Icon)
    ensures name in IconMap() ==> icon == IconMap()[name]
    ensures name !in IconMap() ==> icon == Heart
  {
    if name in IconMap() then IconMap()[name] else Heart
  }

  /** The `icon` field of each entry of the event data, in order. */
  function EventIcons(): seq<string> {
    ["heart", "wine", "utensils", "music", "sparkles"]
  }

  /** Every event of the data names an icon the map has, so the fallback is
      never used, and the five events show five different icons. */
  lemma EventIconsMapped()
    ensures |EventIcons()| == 5
    ensures forall i | 0 <= i < |EventIcons()| :: EventIcons()[i] in IconMap()
    ensures forall i, j | 0 <= i < j < |EventIcons()| :: IconFor(EventIcons()[i]) != IconFor(EventIcons()[j])
  {
  }

  /** A name outside the map, the empty name included, shows a heart. */
  lemma UnknownIconIsHeart()
    ensures IconFor("") == Heart && IconFor("Heart") == Heart && IconFor("star") == Heart
  {
  }

  // ---------------------------------------------------------------------------
  // Placement
  // ---------------------------------------------------------------------------

  /** Whether the `index`-th card sits on the left of the centre line. */
  function IsLeft(isRtl: bool, index: nat): bool {
    if isRtl then index % 2 != 0 else index % 2 == 0
  }

  /** Right-to-left layout places every card on the other side. */
  lemma {:induction false} Mirrored(index: nat)
    ensures IsLeft(true, index) == !IsLeft(false, index)
    ensures IsLeft(false, index) <==> index % 2 == 0
  {
  }

  /** The sides of the first `n` cards, in order. */
  function Sides(isRtl: bool, n: nat): (sides: seq<bool>)
    ensures |sides| == n
    ensures n > 0 ==> sides[0] == !isRtl
    ensures forall i | 0 <= i < n - 1 :: sides[i + 1] == !sides[i]
  {
    seq(n, i requires 0 <= i => IsLeft(isRtl, i))
  }

  /** A card's side is fixed by its position's parity and the layout: the
      sides of a right-to-left page are those of a left-to-right page,
      flipped. */
  lemma {:induction false} SidesMirror(n: nat)
    ensures forall i | 0 <= i < n :: Sides(true, n)[i] == !Sides(false, n)[i]
  {
  }

  // ---------------------------------------------------------------------------
  // Text keys
  // ---------------------------------------------------------------------------

  /** `eventKeys`: the translation key of each event, in the data's order. */
  function EventKeys(): seq<string> {
    ["ceremony", "cocktail", "dinner", "firstDance", "party"]
  }

  /** `eventKeys[index]` interpolated into a template: past the end of the
      list it reads `undefined`. */
  function EventKeyAt(index: nat): (k: string)
    ensures index < |EventKeys()| ==> k == EventKeys()[index]
    ensures index >= |EventKeys()| ==> k == "undefined"
  {
    if index < |EventKeys()| then EventKeys()[index] else "undefined"
  }

  /** `timeline.events.${eventKey}.${field}`. */
  function EventTextKey(index: nat, field: string): string {
    "timeline.events." + EventKeyAt(index) + "." + field
  }

  function TitleKey(index: nat): string {
    EventTextKey(index, "title")
  }

  function DescriptionKey(index: nat): string {
    EventTextKey(index, "description")
  }

  /** There is a key for each of the five events, and the keys are exactly
      the events each table has. */
  lemma EventKeysMatchTables()
    ensures |EventKeys()| == |EventIcons()| == 5
    ensures (set i | 0 <= i < |EventKeys()| :: EventKeys()[i]) == EnEventKeys() == ArEventKeys()
  {
    var s := set i | 0 <= i < |EventKeys()| :: EventKeys()[i];
    assert EventKeys()[0] in s && EventKeys()[1] in s && EventKeys()[2] in s;
    assert EventKeys()[3] in s && EventKeys()[4] in s;
  }

  /** The key of an event, segment by segment. */
  lemma EventTextKeyShape(index: nat, field: string)
    ensures EventTextKey(index, field) == "timeline" + ['.'] + "events" + ['.'] + EventKeyAt(index) + ['.'] + field
  {
    assert "timeline.events." == "timeline" + ['.'] + "events" + ['.'];
  }

  /** The key of an event splits into four segments, the event's own key
      third. */
  lemma {:induction false} EventTextKeySplits(index: nat, field: string)
    requires index < |EventKeys()|
    requires field == "title" || field == "description"
    ensures Split(EventTextKey(index, field), '.') == ["timeline", "events", EventKeys()[index], field]
    ensures EventKeys()[index] in EnEventKeys() && EventKeys()[index] in ArEventKeys()
  {
    EventKeyInTables(index);
    EventTextKeyShape(index, field);
    SplitFour("timeline", "events", EventKeys()[index], field, '.');
  }

  /** Each event key is an event of both tables and holds no dot. */
  lemma {:induction false} EventKeyInTables(index: nat)
    requires index < |EventKeys()|
    ensures EventKeys()[index] in EnEventKeys() && EventKeys()[index] in ArEventKeys()
    ensures '.' !in EventKeys()[index]
  {
    assert index == 0 || index == 1 || index == 2 || index == 3 || index == 4;
  }

  lemma TimelineSections()
    ensures EnglishSection("timeline") == EnTimeline() && ArabicSection("timeline") == ArTimeline()
    ensures "timeline" in EnglishSections()
    ensures EnTimelinePart("events") == EnTimelineEvents() && ArTimelinePart("events") == ArTimelineEvents()
    ensures "events" in EnTimelineKeys() && "events" in ArTimelineKeys()
  {
  }

  /** The text an event's key names in English. */
  function EnglishEventText(k: string, field: string): string {
    if field == "title" then EnEventTitle(k) else EnEventDescription(k)
  }

  /** The text an event's key names in Arabic. */
  function ArabicEventText(k: string, field: string): string {
    if field == "title" then ArEventTitle(k) else ArEventDescription(k)
  }

  /** The first two steps of every event key reach the events object. */
  lemma EventsObject()
    ensures Step(Step(TableOf("en"), "timeline"), "events") == Some(EnTimelineEvents())
    ensures Step(Step(TableOf("ar"), "timeline"), "events") == Some(ArTimelineEvents())
  {
    TimelineSections();
    SectionStep("timeline");
  }

  /** The third step picks the event by its key; a key that is no event's
      misses. */
  lemma EventStep(k: string)
    ensures k in EnEventKeys() ==>
      Step(Some(EnTimelineEvents()), k) == Some(EventEntry(EnEventTitle(k), EnEventDescription(k)))
    ensures k in ArEventKeys() ==>
      Step(Some(ArTimelineEvents()), k) == Some(EventEntry(ArEventTitle(k), ArEventDescription(k)))
    ensures k !in EnEventKeys() ==> Step(Some(EnTimelineEvents()), k) == None
    ensures k !in ArEventKeys() ==> Step(Some(ArTimelineEvents()), k) == None
  {
  }

  /** The last step picks the title or the description of an event. */
  lemma EventFieldStep(title: string, description: string, field: string)
    requires field == "title" || field == "description"
    ensures Step(Some(EventEntry(title, description)), field) ==
      Some(Leaf(if field == "title" then title else description))
  {
  }

  /** In English, the title and description keys of each event name its
      title and description, which are not empty. */
  lemma {:induction false} EnglishEventResolves(index: nat, field: string)
    requires index < |EventKeys()|
    requires field == "title" || field == "description"
    ensures Translate("en", EventTextKey(index, field)) == Leaf(EnglishEventText(EventKeys()[index], field))
    ensures EnglishEventText(EventKeys()[index], field) != ""
  {
    EnglishEventWalk(index, field);
    EnEventTextsNonEmpty(EventKeys()[index]);
  }

  lemma {:induction false} EnglishEventWalk(index: nat, field: string)
    requires index < |EventKeys()|
    requires field == "title" || field == "description"
    ensures Walk(TableOf("en"), Split(EventTextKey(index, field), '.')) ==
      Some(Leaf(EnglishEventText(EventKeys()[index], field)))
    ensures EventKeys()[index] in EnEventKeys()
  {
    var k := EventKeys()[index];
    EventTextKeySplits(index, field);
    EventsObject();
    EventStep(k);
    EventFieldStep(EnEventTitle(k), EnEventDescription(k), field);
    WalkFour(TableOf("en"), "timeline", "events", k, field);
  }

  /** The same in Arabic. */
  lemma {:induction false} ArabicEventResolves(index: nat, field: string)
    requires index < |EventKeys()|
    requires field == "title" || field == "description"
    ensures Translate("ar", EventTextKey(index, field)) == Leaf(ArabicEventText(EventKeys()[index], field))
    ensures ArabicEventText(EventKeys()[index], field) != ""
  {
    ArabicEventWalk(index, field);
    ArEventTextsNonEmpty(EventKeys()[index]);
  }

  lemma {:induction false} ArabicEventWalk(index: nat, field: string)
    requires index < |EventKeys()|
    requires field == "title" || field == "description"
    ensures Walk(TableOf("ar"), Split(EventTextKey(index, field), '.')) ==
      Some(Leaf(ArabicEventText(EventKeys()[index], field)))
    ensures EventKeys()[index] in ArEventKeys()
  {
    var k := EventKeys()[index];
    EventTextKeySplits(index, field);
    EventsObject();
    EventStep(k);
    EventFieldStep(ArEventTitle(k), ArEventDescription(k), field);
    WalkFour(TableOf("ar"), "timeline", "events", k, field);
  }

  /** All ten keys the section builds are found in both tables, as texts and
      never as the key itself: `t` returns what the walk reaches. */
  lemma {:induction false} AllEventKeysResolve()
    ensures forall index: nat, language | index < 5 && (language == "en" || language == "ar") ::
      Translate(language, TitleKey(index)).Leaf? && Translate(language, TitleKey(index)).text != "" &&
      Translate(language, DescriptionKey(index)).Leaf? && Translate(language, DescriptionKey(index)).text != ""
    ensures forall index: nat, language | index < 5 && (language == "en" || language == "ar") ::
      Walk(TableOf(language), Split(TitleKey(index), '.')) == Some(Translate(language, TitleKey(index))) &&
      Walk(TableOf(language), Split(DescriptionKey(index), '.')) == Some(Translate(language, DescriptionKey(index)))
  {
    forall index: nat, language | index < 5 && (language == "en" || language == "ar")
      ensures Translate(language, TitleKey(index)).Leaf? && Translate(language, TitleKey(index)).text != ""
      ensures Translate(language, DescriptionKey(index)).Leaf? && Translate(language, DescriptionKey(index)).text != ""
      ensures Walk(TableOf(language), Split(TitleKey(index), '.')) == Some(Translate(language, TitleKey(index)))
      ensures Walk(TableOf(language), Split(DescriptionKey(index), '.')) == Some(Translate(language, DescriptionKey(index)))
    {
      if language == "en" {
        EnglishEventResolves(index, "title");
        EnglishEventResolves(index, "description");
        EnglishEventWalk(index, "title");
        EnglishEventWalk(index, "description");
      } else {
        ArabicEventResolves(index, "title");
        ArabicEventResolves(index, "description");
        ArabicEventWalk(index, "title");
        ArabicEventWalk(index, "description");
      }
    }
  }

  lemma UndefinedIsNoEvent()
    ensures "undefined" !in EnEventKeys() && "undefined" !in ArEventKeys()
  {
  }

  /** A sixth event would have no key: its title would show as the raw key,
      `timeline.events.undefined.title`. */
  lemma {:induction false} SixthEventShowsKey(language: string)
    requires language == "en" || language == "ar"
    ensures Translate(language, TitleKey(5)) == Leaf(TitleKey(5))
  {
    SixthEventKeySplits();
    SixthEventMisses(language);
  }

  lemma {:induction false} SixthEventKeySplits()
    ensures Split(TitleKey(5), '.') == ["timeline", "events", "undefined", "title"]
  {
    EventTextKeyShape(5, "title");
    SplitFour("timeline", "events", "undefined", "title", '.');
  }

  lemma {:induction false} SixthEventMisses(language: string)
    requires language == "en" || language == "ar"
    ensures Walk(TableOf(language), ["timeline", "events", "undefined", "title"]) == None
  {
    EventsObject();
    UndefinedIsNoEvent();
    EventStep("undefined");
    WalkFour(TableOf(language), "timeline", "events", "undefined", "title");
  }
}
