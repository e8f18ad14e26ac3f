/** The translation table: one tree per language, holding the sections the
    components read (navigation, hero, countdown, details, timeline, venue,
    FAQ, RSVP, footer, music).

    The trees are the two object literals of the source, written so that a
    proof about one part of the table unfolds that part only: an object is
    its key set together with a function from key to value (the text of a
    string entry, the tree of a nested object), each object is a function of
    its own, and long texts are concatenations of shorter literals. */
module Translations {
  import opened Wrappers
  import opened Dictionary

  /** The languages that have a table. */
  function Tables(): map<string, Node> {
    map["en" := English(), "ar" := Arabic()]
  }

  /** A timeline event: its title and its description. */
  function EventEntry(title: string, description: string): Node {
    Dict(map["title" := Leaf(title), "description" := Leaf(description)])
  }

  /** One question of the FAQ with its answer. */
  function FaqEntry(question: string, answer: string): Node {
    Dict(map["question" := Leaf(question), "answer" := Leaf(answer)])
  }

  // ---------------------------------------------------------------------------
  // English
  // ---------------------------------------------------------------------------

  function EnglishSections(): set<string> {
    {"nav", "hero", "countdown", "details", "timeline", "venue", "faq", "rsvp", "footer", "music"}
  }

  /** The English table: one entry per section. */
  function English(): Node {
    Dict(map section | section in EnglishSections() :: EnglishSection(section))
  }

  function EnglishSection(section: string): Node {
    if section == "nav" then EnNav()
    else if section == "hero" then EnHero()
    else if section == "countdown" then EnCountdown()
    else if section == "details" then EnDetails()
    else if section == "timeline" then EnTimeline()
    else if section == "venue" then EnVenue()
    else if section == "faq" then EnFaq()
    else if section == "rsvp" then EnRsvp()
    else if section == "footer" then EnFooter()
    else if section == "music" then EnMusic()
    else Dict(map[])
  }

  function EnNavKeys(): set<string> {
    {"home", "details", "timeline", "venue", "faq", "rsvp"}
  }

  function EnNav(): Node {
    Dict(map k | k in EnNavKeys() :: Leaf(EnNavText(k)))
  }

  function EnNavText(k: string): string {
    if k == "home" then "Home"
    else if k == "details" then "Details"
    else if k == "timeline" then "Timeline"
    else if k == "venue" then "Venue"
    else if k == "faq" then "FAQ"
    else if k == "rsvp" then "RSVP"
    else ""
  }

  function EnHeroKeys(): set<string> {
    {"weddingOf", "saveTheDate", "scrollDown"}
  }

  function EnHero(): Node {
    Dict(map k | k in EnHeroKeys() :: Leaf(EnHeroText(k)))
  }

  function EnHeroText(k: string): string {
    if k == "weddingOf" then "The Wedding of"
    else if k == "saveTheDate" then "Save the Date"
    else if k == "scrollDown" then "Scroll to discover our story"
    else ""
  }

  function EnCountdownKeys(): set<string> {
    {"days", "hours", "minutes", "seconds"}
  }

  function EnCountdown(): Node {
    Dict(map k | k in EnCountdownKeys() :: Leaf(EnCountdownText(k)))
  }

  function EnCountdownText(k: string): string {
    if k == "days" then "Days"
    else if k == "hours" then "Hours"
    else if k == "minutes" then "Minutes"
    else if k == "seconds" then "Seconds"
    else ""
  }

  function EnDetailsKeys(): set<string> {
    {"title", "subtitle", "ceremony", "reception", "dressCode"}
  }

  function EnDetails(): Node {
    Dict(map k | k in EnDetailsKeys() :: Leaf(EnDetailsText(k)))
  }

  function EnDetailsText(k: string): string {
    if k == "title" then "Wedding Details"
    else if k == "subtitle" then "Join us for our special day"
    else if k == "ceremony" then "The Ceremony"
    else if k == "reception" then "The Reception"
    else if k == "dressCode" then "Dress Code"
    else ""
  }

  function EnTimelineKeys(): set<string> {
    {"title", "subtitle", "events"}
  }

  function EnTimeline(): Node {
    Dict(map k | k in EnTimelineKeys() :: EnTimelinePart(k))
  }

  function EnTimelinePart(k: string): Node {
    if k == "events" then EnTimelineEvents()
    else Leaf(EnTimelineText(k))
  }

  function EnTimelineText(k: string): string {
    if k == "title" then "Our Day"
    else if k == "subtitle" then "A timeline of celebrations"
    else ""
  }

  function EnEventKeys(): set<string> {
    {"ceremony", "cocktail", "dinner", "firstDance", "party"}
  }

  function EnTimelineEvents(): Node {
    Dict(map k | k in EnEventKeys() :: EventEntry(EnEventTitle(k), EnEventDescription(k)))
  }

  function EnEventTitle(k: string): string {
    if k == "ceremony" then "Ceremony"
    else if k == "cocktail" then "Cocktail Hour"
    else if k == "dinner" then "Dinner"
    else if k == "firstDance" then "First Dance"
    else if k == "party" then "Party"
    else ""
  }

  function EnEventDescription(k: string): string {
    if k == "ceremony" then
      "Celebrate our union with us in" +
      " a beautiful garden setting"
    else if k == "cocktail" then "Enjoy welcome drinks"
    else if k == "dinner" then
      "Savor a delicious" +
      " farm-to-table feast"
    else if k == "firstDance" then
      "Our first dance as a married" +
      " couple"
    else if k == "party" then "Party time..."
    else ""
  }

  function EnVenueKeys(): set<string> {
    {"title", "subtitle", "getDirections", "openInMaps", "description"}
  }

  function EnVenue(): Node {
    Dict(map k | k in EnVenueKeys() :: Leaf(EnVenueText(k)))
  }

  function EnVenueText(k: string): string {
    if k == "title" then "The Venue"
    else if k == "subtitle" then "Where we'll celebrate"
    else if k == "getDirections" then "Get Directions"
    else if k == "openInMaps" then "Open in Maps"
    else if k == "description" then
      "Resting along Morocco’s" +
      " Atlantic coast, Oualidia is a" +
      " hidden gem where a peaceful" +
      " lagoon meets the open sea." +
      " Surrounded by natural beauty" +
      " and infused with the soul of" +
      " Moroccan coastal life, this" +
      " serene haven offers a" +
      " timeless setting to celebrate" +
      " love, unity, and joy."
    else ""
  }

  function EnFaqKeys(): set<string> {
    {"title", "subtitle", "items"}
  }

  function EnFaq(): Node {
    Dict(map k | k in EnFaqKeys() :: EnFaqPart(k))
  }

  function EnFaqPart(k: string): Node {
    if k == "items" then EnFaqItems()
    else Leaf(EnFaqText(k))
  }

  function EnFaqText(k: string): string {
    if k == "title" then "Questions & Answers"
    else if k == "subtitle" then "Everything you need to know"
    else ""
  }

  /** The questions, in the order the FAQ shows them. */
  function EnFaqItems(): Node {
    List(seq(8, EnFaqItem))
  }

  function EnFaqItem(i: int): Node {
    FaqEntry(EnFaqQuestion(i), EnFaqAnswer(i))
  }

  function EnFaqQuestion(i: int): string {
    if i == 0 then
      "What time should guests" +
      " arrive?"
    else if i == 1 then "Is there parking available?"
    else if i == 2 then "Can I bring a plus one?"
    else if i == 3 then "What is the dress code?"
    else if i == 4 then
      "Will the ceremony be indoors" +
      " or outdoors?"
    else if i == 5 then "Are children welcome?"
    else if i == 6 then
      "What if I have dietary" +
      " restrictions?"
    else if i == 7 then
      "Can I take photos during the" +
      " ceremony?"
    else ""
  }

  function EnFaqAnswer(i: int): string {
    if i == 0 then
      "We kindly ask that all guests" +
      " arrive by 3:45 PM to be" +
      " seated before the ceremony" +
      " begins at 4:00 PM."
    else if i == 1 then
      "Yes! Parking will be available" +
      " at the venue."
    else if i == 2 then
      "Due to venue capacity, we are" +
      " only able to accommodate" +
      " those guests formally" +
      " invited."
    else if i == 3 then
      "We request formal attire for" +
      " our celebration or" +
      " traditional clothes."
    else if i == 4 then
      "The ceremony will be held" +
      " outdoors in the garden. We" +
      " have an indoor backup in case" +
      " of weather."
    else if i == 5 then
      "Our wedding is an adults-only" +
      " celebration to give everyone" +
      " a chance to relax and enjoy." +
      " This rule does not apply to" +
      " Aida"
    else if i == 6 then
      "Please let us know in your" +
      " RSVP, and our catering team" +
      " will accommodate your needs."
    else if i == 7 then
      "We kindly ask for an unplugged" +
      " ceremony. Feel free to take" +
      " photos during the reception!"
    else ""
  }

  function EnRsvpKeys(): set<string> {
    {"title", "subtitle", "form", "success"}
  }

  function EnRsvp(): Node {
    Dict(map k | k in EnRsvpKeys() :: EnRsvpPart(k))
  }

  function EnRsvpPart(k: string): Node {
    if k == "form" then EnRsvpForm()
    else if k == "success" then EnRsvpSuccess()
    else Leaf(EnRsvpText(k))
  }

  function EnRsvpText(k: string): string {
    if k == "title" then "RSVP"
    else if k == "subtitle" then
      "We hope you can celebrate with" +
      " us"
    else ""
  }

  function EnRsvpFormKeys(): set<string> {
    {"name", "namePlaceholder", "email", "emailPlaceholder", "attending", "yes", "no", "guests", "dietary", "dietaryPlaceholder", "message", "messagePlaceholder", "submit", "submitting"}
  }

  function EnRsvpForm(): Node {
    Dict(map k | k in EnRsvpFormKeys() :: Leaf(EnRsvpFormText(k)))
  }

  function EnRsvpFormText(k: string): string {
    if k == "name" then "Full Name"
    else if k == "namePlaceholder" then "Enter your full name"
    else if k == "email" then "Email Address"
    else if k == "emailPlaceholder" then "Enter your email"
    else if k == "attending" then "Will you be attending?"
    else if k == "yes" then "Joyfully Accept"
    else if k == "no" then "Regretfully Decline"
    else if k == "guests" then "Number of Guests"
    else if k == "dietary" then "Dietary Restrictions"
    else if k == "dietaryPlaceholder" then
      "Please list any allergies or" +
      " dietary requirements"
    else if k == "message" then "Message for the Couple"
    else if k == "messagePlaceholder" then
      "Share your wishes or any" +
      " notes..."
    else if k == "submit" then "Send RSVP"
    else if k == "submitting" then "Sending..."
    else ""
  }

  function EnRsvpSuccessKeys(): set<string> {
    {"title", "message", "declined"}
  }

  function EnRsvpSuccess(): Node {
    Dict(map k | k in EnRsvpSuccessKeys() :: Leaf(EnRsvpSuccessText(k)))
  }

  function EnRsvpSuccessText(k: string): string {
    if k == "title" then "Thank You!"
    else if k == "message" then
      "Your RSVP has been received." +
      " We can't wait to celebrate" +
      " with you!"
    else if k == "declined" then
      "We're sorry you can't make it," +
      " but thank you for letting us" +
      " know."
    else ""
  }

  function EnFooterKeys(): set<string> {
    {"thankYou", "madeWith"}
  }

  function EnFooter(): Node {
    Dict(map k | k in EnFooterKeys() :: Leaf(EnFooterText(k)))
  }

  function EnFooterText(k: string): string {
    if k == "thankYou" then
      "Thank You for Being Part of" +
      " Our Story"
    else if k == "madeWith" then
      "Made with love for our special" +
      " day"
    else ""
  }

  function EnMusicKeys(): set<string> {
    {"clickToPlay", "nowPlaying"}
  }

  function EnMusic(): Node {
    Dict(map k | k in EnMusicKeys() :: Leaf(EnMusicText(k)))
  }

  function EnMusicText(k: string): string {
    if k == "clickToPlay" then "Click to Play Music"
    else if k == "nowPlaying" then "Now Playing"
    else ""
  }

  // ---------------------------------------------------------------------------
  // Arabic
  // ---------------------------------------------------------------------------

  function ArabicSections(): set<string> {
    {"nav", "hero", "countdown", "details", "timeline", "venue", "faq", "rsvp", "footer", "music"}
  }

  /** The Arabic table: one entry per section. */
  function Arabic(): Node {
    Dict(map section | section in ArabicSections() :: ArabicSection(section))
  }

  function ArabicSection(section: string): Node {
    if section == "nav" then ArNav()
    else if section == "hero" then ArHero()
    else if section == "countdown" then ArCountdown()
    else if section == "details" then ArDetails()
    else if section == "timeline" then ArTimeline()
    else if section == "venue" then ArVenue()
    else if section == "faq" then ArFaq()
    else if section == "rsvp" then ArRsvp()
    else if section == "footer" then ArFooter()
    else if section == "music" then ArMusic()
    else Dict(map[])
  }

  function ArNavKeys(): set<string> {
    {"home", "details", "timeline", "venue", "faq", "rsvp"}
  }

  function ArNav(): Node {
    Dict(map k | k in ArNavKeys() :: Leaf(ArNavText(k)))
  }

  function ArNavText(k: string): string {
    if k == "home" then "الرئيسية"
    else if k == "details" then "التفاصيل"
    else if k == "timeline" then "البرنامج"
    else if k == "venue" then "المكان"
    else if k == "faq" then "الأسئلة"
    else if k == "rsvp" then "تأكيد الحضور"
    else ""
  }

  function ArHeroKeys(): set<string> {
    {"weddingOf", "saveTheDate", "scrollDown"}
  }

  function ArHero(): Node {
    Dict(map k | k in ArHeroKeys() :: Leaf(ArHeroText(k)))
  }

  function ArHeroText(k: string): string {
    if k == "weddingOf" then "حفل زفاف"
    else if k == "saveTheDate" then "احفظ الموعد"
    else if k == "scrollDown" then "مرر للأسفل لاكتشاف قصتنا"
    else ""
  }

  function ArCountdownKeys(): set<string> {
    {"days", "hours", "minutes", "seconds"}
  }

  function ArCountdown(): Node {
    Dict(map k | k in ArCountdownKeys() :: Leaf(ArCountdownText(k)))
  }

  function ArCountdownText(k: string): string {
    if k == "days" then "أيام"
    else if k == "hours" then "ساعات"
    else if k == "minutes" then "دقائق"
    else if k == "seconds" then "ثواني"
    else ""
  }

  function ArDetailsKeys(): set<string> {
    {"title", "subtitle", "ceremony", "reception", "dressCode"}
  }

  function ArDetails(): Node {
    Dict(map k | k in ArDetailsKeys() :: Leaf(ArDetailsText(k)))
  }

  function ArDetailsText(k: string): string {
    if k == "title" then "تفاصيل الزفاف"
    else if k == "subtitle" then "انضموا إلينا في يومنا المميز"
    else if k == "ceremony" then "مراسم الزفاف"
    else if k == "reception" then "حفل الاستقبال"
    else if k == "dressCode" then "قواعد اللباس"
    else ""
  }

  function ArTimelineKeys(): set<string> {
    {"title", "subtitle", "events"}
  }

  function ArTimeline(): Node {
    Dict(map k | k in ArTimelineKeys() :: ArTimelinePart(k))
  }

  function ArTimelinePart(k: string): Node {
    if k == "events" then ArTimelineEvents()
    else Leaf(ArTimelineText(k))
  }

  function ArTimelineText(k: string): string {
    if k == "title" then "برنامج اليوم"
    else if k == "subtitle" then "جدول الاحتفالات"
    else ""
  }

  function ArEventKeys(): set<string> {
    {"ceremony", "cocktail", "dinner", "firstDance", "party"}
  }

  function ArTimelineEvents(): Node {
    Dict(map k | k in ArEventKeys() :: EventEntry(ArEventTitle(k), ArEventDescription(k)))
  }

  function ArEventTitle(k: string): string {
    if k == "ceremony" then "مراسم الزفاف"
    else if k == "cocktail" then "المشروبات الترحيبية"
    else if k == "dinner" then "العشاء"
    else if k == "firstDance" then "النشاط"
    else if k == "party" then "الحفلة"
    else ""
  }

  function ArEventDescription(k: string): string {
    if k == "ceremony" then "استقبال الضيوف"
    else if k == "cocktail" then
      "استمتعوا بالمقبلات والمشروبات" +
      " الترحيبية"
    else if k == "dinner" then "تذوقوا وليمة شهية"
    else if k == "firstDance" then "الاستمتاع بأجواء الفرح"
    else if k == "party" then "-"
    else ""
  }

  function ArVenueKeys(): set<string> {
    {"title", "subtitle", "getDirections", "openInMaps", "description"}
  }

  function ArVenue(): Node {
    Dict(map k | k in ArVenueKeys() :: Leaf(ArVenueText(k)))
  }

  function ArVenueText(k: string): string {
    if k == "title" then "مكان الحفل"
    else if k == "subtitle" then "حيث سنحتفل"
    else if k == "getDirections" then "احصل على الاتجاهات"
    else if k == "openInMaps" then "افتح في الخرائط"
    else if k == "description" then
      "على ضفاف الساحل الأطلسي" +
      " للمغرب، تتجلى الوليدية كجوهرة" +
      " مخفية، حيث تعانق البحيرة" +
      " الهادئة زرقة المحيط. وبين" +
      " أحضان الطبيعة وروح الساحل" +
      " المغربي الأصيل، تنسج هذه" +
      " الواحة الهادئة أجواءً خالدة" +
      " للاحتفال بالحب والانسجام" +
      " والفرح."
    else ""
  }

  function ArFaqKeys(): set<string> {
    {"title", "subtitle", "items"}
  }

  function ArFaq(): Node {
    Dict(map k | k in ArFaqKeys() :: ArFaqPart(k))
  }

  function ArFaqPart(k: string): Node {
    if k == "items" then ArFaqItems()
    else Leaf(ArFaqText(k))
  }

  function ArFaqText(k: string): string {
    if k == "title" then "الأسئلة والأجوبة"
    else if k == "subtitle" then "كل ما تحتاج معرفته"
    else ""
  }

  /** The questions, in the order the FAQ shows them. */
  function ArFaqItems(): Node {
    List(seq(8, ArFaqItem))
  }

  function ArFaqItem(i: int): Node {
    FaqEntry(ArFaqQuestion(i), ArFaqAnswer(i))
  }

  function ArFaqQuestion(i: int): string {
    if i == 0 then
      "ما هو الوقت المناسب لوصول" +
      " الضيوف؟"
    else if i == 1 then "هل يتوفر موقف سيارات؟"
    else if i == 2 then "هل يمكنني إحضار مرافق؟"
    else if i == 3 then "ما هو قواعد اللباس؟"
    else if i == 4 then
      "هل ستقام المراسم في الداخل أم" +
      " الخارج؟"
    else if i == 5 then "هل الأطفال مرحب بهم؟"
    else if i == 6 then "ماذا لو كان لدي قيود غذائية؟"
    else if i == 7 then
      "هل يمكنني التقاط صور أثناء" +
      " المراسم؟"
    else ""
  }

  function ArFaqAnswer(i: int): string {
    if i == 0 then
      "نرجو من جميع الضيوف الوصول" +
      " بحلول الساعة 3:45 مساءً" +
      " للجلوس قبل بدء المراسم في" +
      " الساعة 4:00 مساءً."
    else if i == 1 then
      "نعم! ستتوفر خدمة صف السيارات" +
      " المجانية في المكان."
    else if i == 2 then
      "نظراً لسعة المكان، يمكننا فقط" +
      " استضافة الضيوف المدعوين" +
      " رسمياً."
    else if i == 3 then
      "نطلب ارتداء الملابس الرسمية." +
      " للسيدات فساتين أنيقة، وللرجال" +
      " بدلات رسمية."
    else if i == 4 then
      "ستقام المراسم في الهواء الطلق" +
      " في الحديقة. لدينا مكان بديل" +
      " داخلي في حالة سوء الطقس."
    else if i == 5 then
      "حفل زفافنا مخصص للبالغين فقط" +
      " لمنح الجميع فرصة للاسترخاء" +
      " والاستمتاع."
    else if i == 6 then
      "يرجى إبلاغنا في تأكيد الحضور،" +
      " وسيقوم فريق التقديم بتلبية" +
      " احتياجاتكم."
    else if i == 7 then
      "نرجو عدم استخدام الهواتف أثناء" +
      " المراسم. يمكنكم التقاط الصور" +
      " خلال حفل الاستقبال!"
    else ""
  }

  function ArRsvpKeys(): set<string> {
    {"title", "subtitle", "form", "success"}
  }

  function ArRsvp(): Node {
    Dict(map k | k in ArRsvpKeys() :: ArRsvpPart(k))
  }

  function ArRsvpPart(k: string): Node {
    if k == "form" then ArRsvpForm()
    else if k == "success" then ArRsvpSuccess()
    else Leaf(ArRsvpText(k))
  }

  function ArRsvpText(k: string): string {
    if k == "title" then "تأكيد الحضور"
    else if k == "subtitle" then "نأمل أن تحتفلوا معنا"
    else ""
  }

  function ArRsvpFormKeys(): set<string> {
    {"name", "namePlaceholder", "email", "emailPlaceholder", "attending", "yes", "no", "guests", "dietary", "dietaryPlaceholder", "message", "messagePlaceholder", "submit", "submitting"}
  }

  function ArRsvpForm(): Node {
    Dict(map k | k in ArRsvpFormKeys() :: Leaf(ArRsvpFormText(k)))
  }

  function ArRsvpFormText(k: string): string {
    if k == "name" then "الاسم الكامل"
    else if k == "namePlaceholder" then "أدخل اسمك الكامل"
    else if k == "email" then "البريد الإلكتروني"
    else if k == "emailPlaceholder" then "أدخل بريدك الإلكتروني"
    else if k == "attending" then "هل ستحضر؟"
    else if k == "yes" then "نعم، بكل سرور"
    else if k == "no" then "للأسف، لا أستطيع"
    else if k == "guests" then "عدد الضيوف"
    else if k == "dietary" then "القيود الغذائية"
    else if k == "dietaryPlaceholder" then
      "يرجى ذكر أي حساسية أو متطلبات" +
      " غذائية"
    else if k == "message" then "رسالة للعروسين"
    else if k == "messagePlaceholder" then
      "شاركنا أمنياتك أو أي" +
      " ملاحظات..."
    else if k == "submit" then "إرسال التأكيد"
    else if k == "submitting" then "جاري الإرسال..."
    else ""
  }

  function ArRsvpSuccessKeys(): set<string> {
    {"title", "message", "declined"}
  }

  function ArRsvpSuccess(): Node {
    Dict(map k | k in ArRsvpSuccessKeys() :: Leaf(ArRsvpSuccessText(k)))
  }

  function ArRsvpSuccessText(k: string): string {
    if k == "title" then "شكراً لك!"
    else if k == "message" then
      "تم استلام تأكيد حضورك. لا" +
      " نستطيع الانتظار للاحتفال معك!"
    else if k == "declined" then
      "نأسف لعدم قدرتك على الحضور،" +
      " لكن شكراً لإعلامنا."
    else ""
  }

  function ArFooterKeys(): set<string> {
    {"thankYou", "madeWith"}
  }

  function ArFooter(): Node {
    Dict(map k | k in ArFooterKeys() :: Leaf(ArFooterText(k)))
  }

  function ArFooterText(k: string): string {
    if k == "thankYou" then "شكراً لكونكم جزءاً من قصتنا"
    else if k == "madeWith" then "صُنع بحب ليومنا المميز"
    else ""
  }

  function ArMusicKeys(): set<string> {
    {"clickToPlay", "nowPlaying"}
  }

  function ArMusic(): Node {
    Dict(map k | k in ArMusicKeys() :: Leaf(ArMusicText(k)))
  }

  function ArMusicText(k: string): string {
    if k == "clickToPlay" then "اضغط لتشغيل الموسيقى"
    else if k == "nowPlaying" then "يعمل الآن"
    else ""
  }

  // ---------------------------------------------------------------------------
  // Both tables have the same key paths and no empty text
  // ---------------------------------------------------------------------------

  lemma EventEntrySameShape(a1: string, a2: string, b1: string, b2: string)
    ensures SameShape(EventEntry(a1, a2), EventEntry(b1, b2))
  {
  }

  lemma FaqEntrySameShape(a1: string, a2: string, b1: string, b2: string)
    ensures SameShape(FaqEntry(a1, a2), FaqEntry(b1, b2))
  {
  }

  lemma {:induction false} TimelineEventsSameShape()
    ensures SameShape(EnTimelineEvents(), ArTimelineEvents())
  {
    forall k | k in EnEventKeys()
      ensures SameShape(EventEntry(EnEventTitle(k), EnEventDescription(k)), EventEntry(ArEventTitle(k), ArEventDescription(k)))
    {
      EventEntrySameShape(EnEventTitle(k), EnEventDescription(k), ArEventTitle(k), ArEventDescription(k));
    }
  }

  lemma EnEventTextsNonEmpty(k: string)
    requires k in EnEventKeys()
    ensures EnEventTitle(k) != "" && EnEventDescription(k) != ""
  {
  }

  lemma {:induction false} EnTimelineEventsNoEmptyLeaf()
    ensures NoEmptyLeaf(EnTimelineEvents())
  {
    forall k | k in EnEventKeys()
      ensures NoEmptyLeaf(EventEntry(EnEventTitle(k), EnEventDescription(k)))
    {
      EnEventTextsNonEmpty(k);
    }
  }

  lemma ArEventTextsNonEmpty(k: string)
    requires k in ArEventKeys()
    ensures ArEventTitle(k) != "" && ArEventDescription(k) != ""
  {
  }

  lemma {:induction false} ArTimelineEventsNoEmptyLeaf()
    ensures NoEmptyLeaf(ArTimelineEvents())
  {
    forall k | k in ArEventKeys()
      ensures NoEmptyLeaf(EventEntry(ArEventTitle(k), ArEventDescription(k)))
    {
      ArEventTextsNonEmpty(k);
    }
  }

  lemma {:induction false} FaqItemsSameShape()
    ensures SameShape(EnFaqItems(), ArFaqItems())
  {
    forall i | 0 <= i < 8
      ensures SameShape(EnFaqItem(i), ArFaqItem(i))
    {
      FaqEntrySameShape(EnFaqQuestion(i), EnFaqAnswer(i), ArFaqQuestion(i), ArFaqAnswer(i));
    }
  }

  lemma EnFaqQuestionNonEmpty(i: int)
    requires 0 <= i < 8
    ensures EnFaqQuestion(i) != ""
  {
  }

  lemma EnFaqAnswerNonEmpty(i: int)
    requires 0 <= i < 8
    ensures EnFaqAnswer(i) != ""
  {
  }

  lemma {:induction false} EnFaqItemsNoEmptyLeaf()
    ensures NoEmptyLeaf(EnFaqItems())
  {
    forall i | 0 <= i < 8
      ensures NoEmptyLeaf(EnFaqItem(i))
    {
      EnFaqQuestionNonEmpty(i);
      EnFaqAnswerNonEmpty(i);
    }
  }

  lemma ArFaqQuestionNonEmpty(i: int)
    requires 0 <= i < 8
    ensures ArFaqQuestion(i) != ""
  {
  }

  lemma ArFaqAnswerNonEmpty(i: int)
    requires 0 <= i < 8
    ensures ArFaqAnswer(i) != ""
  {
  }

  lemma {:induction false} ArFaqItemsNoEmptyLeaf()
    ensures NoEmptyLeaf(ArFaqItems())
  {
    forall i | 0 <= i < 8
      ensures NoEmptyLeaf(ArFaqItem(i))
    {
      ArFaqQuestionNonEmpty(i);
      ArFaqAnswerNonEmpty(i);
    }
  }

  lemma RsvpFormSameShape()
    ensures SameShape(EnRsvpForm(), ArRsvpForm())
  {
  }

  lemma EnRsvpFormTextNonEmpty(k: string)
    requires k in EnRsvpFormKeys()
    ensures EnRsvpFormText(k) != ""
  {
  }

  lemma {:induction false} EnRsvpFormNoEmptyLeaf()
    ensures NoEmptyLeaf(EnRsvpForm())
  {
    forall k | k in EnRsvpFormKeys()
      ensures NoEmptyLeaf(Leaf(EnRsvpFormText(k)))
    {
      EnRsvpFormTextNonEmpty(k);
    }
  }

  lemma ArRsvpFormTextNonEmpty(k: string)
    requires k in ArRsvpFormKeys()
    ensures ArRsvpFormText(k) != ""
  {
  }

  lemma {:induction false} ArRsvpFormNoEmptyLeaf()
    ensures NoEmptyLeaf(ArRsvpForm())
  {
    forall k | k in ArRsvpFormKeys()
      ensures NoEmptyLeaf(Leaf(ArRsvpFormText(k)))
    {
      ArRsvpFormTextNonEmpty(k);
    }
  }

  lemma RsvpSuccessSameShape()
    ensures SameShape(EnRsvpSuccess(), ArRsvpSuccess())
  {
  }

  lemma EnRsvpSuccessTextNonEmpty(k: string)
    requires k in EnRsvpSuccessKeys()
    ensures EnRsvpSuccessText(k) != ""
  {
  }

  lemma {:induction false} EnRsvpSuccessNoEmptyLeaf()
    ensures NoEmptyLeaf(EnRsvpSuccess())
  {
    forall k | k in EnRsvpSuccessKeys()
      ensures NoEmptyLeaf(Leaf(EnRsvpSuccessText(k)))
    {
      EnRsvpSuccessTextNonEmpty(k);
    }
  }

  lemma ArRsvpSuccessTextNonEmpty(k: string)
    requires k in ArRsvpSuccessKeys()
    ensures ArRsvpSuccessText(k) != ""
  {
  }

  lemma {:induction false} ArRsvpSuccessNoEmptyLeaf()
    ensures NoEmptyLeaf(ArRsvpSuccess())
  {
    forall k | k in ArRsvpSuccessKeys()
      ensures NoEmptyLeaf(Leaf(ArRsvpSuccessText(k)))
    {
      ArRsvpSuccessTextNonEmpty(k);
    }
  }

  lemma NavSameShape()
    ensures SameShape(EnNav(), ArNav())
  {
  }

  lemma EnNavTextNonEmpty(k: string)
    requires k in EnNavKeys()
    ensures EnNavText(k) != ""
  {
  }

  lemma {:induction false} EnNavNoEmptyLeaf()
    ensures NoEmptyLeaf(EnNav())
  {
    forall k | k in EnNavKeys()
      ensures NoEmptyLeaf(Leaf(EnNavText(k)))
    {
      EnNavTextNonEmpty(k);
    }
  }

  lemma ArNavTextNonEmpty(k: string)
    requires k in ArNavKeys()
    ensures ArNavText(k) != ""
  {
  }

  lemma {:induction false} ArNavNoEmptyLeaf()
    ensures NoEmptyLeaf(ArNav())
  {
    forall k | k in ArNavKeys()
      ensures NoEmptyLeaf(Leaf(ArNavText(k)))
    {
      ArNavTextNonEmpty(k);
    }
  }

  lemma HeroSameShape()
    ensures SameShape(EnHero(), ArHero())
  {
  }

  lemma EnHeroTextNonEmpty(k: string)
    requires k in EnHeroKeys()
    ensures EnHeroText(k) != ""
  {
  }

  lemma {:induction false} EnHeroNoEmptyLeaf()
    ensures NoEmptyLeaf(EnHero())
  {
    forall k | k in EnHeroKeys()
      ensures NoEmptyLeaf(Leaf(EnHeroText(k)))
    {
      EnHeroTextNonEmpty(k);
    }
  }

  lemma ArHeroTextNonEmpty(k: string)
    requires k in ArHeroKeys()
    ensures ArHeroText(k) != ""
  {
  }

  lemma {:induction false} ArHeroNoEmptyLeaf()
    ensures NoEmptyLeaf(ArHero())
  {
    forall k | k in ArHeroKeys()
      ensures NoEmptyLeaf(Leaf(ArHeroText(k)))
    {
      ArHeroTextNonEmpty(k);
    }
  }

  lemma CountdownSameShape()
    ensures SameShape(EnCountdown(), ArCountdown())
  {
  }

  lemma EnCountdownTextNonEmpty(k: string)
    requires k in EnCountdownKeys()
    ensures EnCountdownText(k) != ""
  {
  }

  lemma {:induction false} EnCountdownNoEmptyLeaf()
    ensures NoEmptyLeaf(EnCountdown())
  {
    forall k | k in EnCountdownKeys()
      ensures NoEmptyLeaf(Leaf(EnCountdownText(k)))
    {
      EnCountdownTextNonEmpty(k);
    }
  }

  lemma ArCountdownTextNonEmpty(k: string)
    requires k in ArCountdownKeys()
    ensures ArCountdownText(k) != ""
  {
  }

  lemma {:induction false} ArCountdownNoEmptyLeaf()
    ensures NoEmptyLeaf(ArCountdown())
  {
    forall k | k in ArCountdownKeys()
      ensures NoEmptyLeaf(Leaf(ArCountdownText(k)))
    {
      ArCountdownTextNonEmpty(k);
    }
  }

  lemma DetailsSameShape()
    ensures SameShape(EnDetails(), ArDetails())
  {
  }

  lemma EnDetailsTextNonEmpty(k: string)
    requires k in EnDetailsKeys()
    ensures EnDetailsText(k) != ""
  {
  }

  lemma {:induction false} EnDetailsNoEmptyLeaf()
    ensures NoEmptyLeaf(EnDetails())
  {
    forall k | k in EnDetailsKeys()
      ensures NoEmptyLeaf(Leaf(EnDetailsText(k)))
    {
      EnDetailsTextNonEmpty(k);
    }
  }

  lemma ArDetailsTextNonEmpty(k: string)
    requires k in ArDetailsKeys()
    ensures ArDetailsText(k) != ""
  {
  }

  lemma {:induction false} ArDetailsNoEmptyLeaf()
    ensures NoEmptyLeaf(ArDetails())
  {
    forall k | k in ArDetailsKeys()
      ensures NoEmptyLeaf(Leaf(ArDetailsText(k)))
    {
      ArDetailsTextNonEmpty(k);
    }
  }

  lemma {:induction false} TimelineSameShape()
    ensures SameShape(EnTimeline(), ArTimeline())
  {
    forall k | k in EnTimelineKeys()
      ensures SameShape(EnTimelinePart(k), ArTimelinePart(k))
    {
      if k == "events" {
        TimelineEventsSameShape();
      }
    }
  }

  lemma EnTimelineTextNonEmpty(k: string)
    requires k in EnTimelineKeys() && k != "events"
    ensures EnTimelineText(k) != ""
  {
  }

  lemma {:induction false} EnTimelineNoEmptyLeaf()
    ensures NoEmptyLeaf(EnTimeline())
  {
    forall k | k in EnTimelineKeys()
      ensures NoEmptyLeaf(EnTimelinePart(k))
    {
      if k == "events" {
        EnTimelineEventsNoEmptyLeaf();
      }
      else {
        EnTimelineTextNonEmpty(k);
      }
    }
  }

  lemma ArTimelineTextNonEmpty(k: string)
    requires k in ArTimelineKeys() && k != "events"
    ensures ArTimelineText(k) != ""
  {
  }

  lemma {:induction false} ArTimelineNoEmptyLeaf()
    ensures NoEmptyLeaf(ArTimeline())
  {
    forall k | k in ArTimelineKeys()
      ensures NoEmptyLeaf(ArTimelinePart(k))
    {
      if k == "events" {
        ArTimelineEventsNoEmptyLeaf();
      }
      else {
        ArTimelineTextNonEmpty(k);
      }
    }
  }

  lemma VenueSameShape()
    ensures SameShape(EnVenue(), ArVenue())
  {
  }

  lemma EnVenueTextNonEmpty(k: string)
    requires k in EnVenueKeys()
    ensures EnVenueText(k) != ""
  {
  }

  lemma {:induction false} EnVenueNoEmptyLeaf()
    ensures NoEmptyLeaf(EnVenue())
  {
    forall k | k in EnVenueKeys()
      ensures NoEmptyLeaf(Leaf(EnVenueText(k)))
    {
      EnVenueTextNonEmpty(k);
    }
  }

  lemma ArVenueTextNonEmpty(k: string)
    requires k in ArVenueKeys()
    ensures ArVenueText(k) != ""
  {
  }

  lemma {:induction false} ArVenueNoEmptyLeaf()
    ensures NoEmptyLeaf(ArVenue())
  {
    forall k | k in ArVenueKeys()
      ensures NoEmptyLeaf(Leaf(ArVenueText(k)))
    {
      ArVenueTextNonEmpty(k);
    }
  }

  lemma {:induction false} FaqSameShape()
    ensures SameShape(EnFaq(), ArFaq())
  {
    forall k | k in EnFaqKeys()
      ensures SameShape(EnFaqPart(k), ArFaqPart(k))
    {
      if k == "items" {
        FaqItemsSameShape();
      }
    }
  }

  lemma EnFaqTextNonEmpty(k: string)
    requires k in EnFaqKeys() && k != "items"
    ensures EnFaqText(k) != ""
  {
  }

  lemma {:induction false} EnFaqNoEmptyLeaf()
    ensures NoEmptyLeaf(EnFaq())
  {
    forall k | k in EnFaqKeys()
      ensures NoEmptyLeaf(EnFaqPart(k))
    {
      if k == "items" {
        EnFaqItemsNoEmptyLeaf();
      }
      else {
        EnFaqTextNonEmpty(k);
      }
    }
  }

  lemma ArFaqTextNonEmpty(k: string)
    requires k in ArFaqKeys() && k != "items"
    ensures ArFaqText(k) != ""
  {
  }

  lemma {:induction false} ArFaqNoEmptyLeaf()
    ensures NoEmptyLeaf(ArFaq())
  {
    forall k | k in ArFaqKeys()
      ensures NoEmptyLeaf(ArFaqPart(k))
    {
      if k == "items" {
        ArFaqItemsNoEmptyLeaf();
      }
      else {
        ArFaqTextNonEmpty(k);
      }
    }
  }

  lemma {:induction false} RsvpSameShape()
    ensures SameShape(EnRsvp(), ArRsvp())
  {
    forall k | k in EnRsvpKeys()
      ensures SameShape(EnRsvpPart(k), ArRsvpPart(k))
    {
      if k == "form" {
        RsvpFormSameShape();
      }
      else if k == "success" {
        RsvpSuccessSameShape();
      }
    }
  }

  lemma EnRsvpTextNonEmpty(k: string)
    requires k in EnRsvpKeys() && k != "form" && k != "success"
    ensures EnRsvpText(k) != ""
  {
  }

  lemma {:induction false} EnRsvpNoEmptyLeaf()
    ensures NoEmptyLeaf(EnRsvp())
  {
    forall k | k in EnRsvpKeys()
      ensures NoEmptyLeaf(EnRsvpPart(k))
    {
      if k == "form" {
        EnRsvpFormNoEmptyLeaf();
      }
      else if k == "success" {
        EnRsvpSuccessNoEmptyLeaf();
      }
      else {
        EnRsvpTextNonEmpty(k);
      }
    }
  }

  lemma ArRsvpTextNonEmpty(k: string)
    requires k in ArRsvpKeys() && k != "form" && k != "success"
    ensures ArRsvpText(k) != ""
  {
  }

  lemma {:induction false} ArRsvpNoEmptyLeaf()
    ensures NoEmptyLeaf(ArRsvp())
  {
    forall k | k in ArRsvpKeys()
      ensures NoEmptyLeaf(ArRsvpPart(k))
    {
      if k == "form" {
        ArRsvpFormNoEmptyLeaf();
      }
      else if k == "success" {
        ArRsvpSuccessNoEmptyLeaf();
      }
      else {
        ArRsvpTextNonEmpty(k);
      }
    }
  }

  lemma FooterSameShape()
    ensures SameShape(EnFooter(), ArFooter())
  {
  }

  lemma EnFooterTextNonEmpty(k: string)
    requires k in EnFooterKeys()
    ensures EnFooterText(k) != ""
  {
  }

  lemma {:induction false} EnFooterNoEmptyLeaf()
    ensures NoEmptyLeaf(EnFooter())
  {
    forall k | k in EnFooterKeys()
      ensures NoEmptyLeaf(Leaf(EnFooterText(k)))
    {
      EnFooterTextNonEmpty(k);
    }
  }

  lemma ArFooterTextNonEmpty(k: string)
    requires k in ArFooterKeys()
    ensures ArFooterText(k) != ""
  {
  }

  lemma {:induction false} ArFooterNoEmptyLeaf()
    ensures NoEmptyLeaf(ArFooter())
  {
    forall k | k in ArFooterKeys()
      ensures NoEmptyLeaf(Leaf(ArFooterText(k)))
    {
      ArFooterTextNonEmpty(k);
    }
  }

  lemma MusicSameShape()
    ensures SameShape(EnMusic(), ArMusic())
  {
  }

  lemma EnMusicTextNonEmpty(k: string)
    requires k in EnMusicKeys()
    ensures EnMusicText(k) != ""
  {
  }

  lemma {:induction false} EnMusicNoEmptyLeaf()
    ensures NoEmptyLeaf(EnMusic())
  {
    forall k | k in EnMusicKeys()
      ensures NoEmptyLeaf(Leaf(EnMusicText(k)))
    {
      EnMusicTextNonEmpty(k);
    }
  }

  lemma ArMusicTextNonEmpty(k: string)
    requires k in ArMusicKeys()
    ensures ArMusicText(k) != ""
  {
  }

  lemma {:induction false} ArMusicNoEmptyLeaf()
    ensures NoEmptyLeaf(ArMusic())
  {
    forall k | k in ArMusicKeys()
      ensures NoEmptyLeaf(Leaf(ArMusicText(k)))
    {
      ArMusicTextNonEmpty(k);
    }
  }

  /** The English and Arabic tables have identical key paths. */
  lemma {:induction false} TablesSameShape()
    ensures SameShape(English(), Arabic())
  {
    forall section | section in EnglishSections()
      ensures SameShape(EnglishSection(section), ArabicSection(section))
    {
      if section == "nav" {
        NavSameShape();
      }
      else if section == "hero" {
        HeroSameShape();
      }
      else if section == "countdown" {
        CountdownSameShape();
      }
      else if section == "details" {
        DetailsSameShape();
      }
      else if section == "timeline" {
        TimelineSameShape();
      }
      else if section == "venue" {
        VenueSameShape();
      }
      else if section == "faq" {
        FaqSameShape();
      }
      else if section == "rsvp" {
        RsvpSameShape();
      }
      else if section == "footer" {
        FooterSameShape();
      }
      else if section == "music" {
        MusicSameShape();
      }
    }
  }

  /** No text of the English table is empty. */
  lemma {:induction false} EnglishNoEmptyLeaf()
    ensures NoEmptyLeaf(English())
  {
    forall section | section in EnglishSections()
      ensures NoEmptyLeaf(EnglishSection(section))
    {
      if section == "nav" {
        EnNavNoEmptyLeaf();
      }
      else if section == "hero" {
        EnHeroNoEmptyLeaf();
      }
      else if section == "countdown" {
        EnCountdownNoEmptyLeaf();
      }
      else if section == "details" {
        EnDetailsNoEmptyLeaf();
      }
      else if section == "timeline" {
        EnTimelineNoEmptyLeaf();
      }
      else if section == "venue" {
        EnVenueNoEmptyLeaf();
      }
      else if section == "faq" {
        EnFaqNoEmptyLeaf();
      }
      else if section == "rsvp" {
        EnRsvpNoEmptyLeaf();
      }
      else if section == "footer" {
        EnFooterNoEmptyLeaf();
      }
      else if section == "music" {
        EnMusicNoEmptyLeaf();
      }
    }
  }

  /** No text of the Arabic table is empty. */
  lemma {:induction false} ArabicNoEmptyLeaf()
    ensures NoEmptyLeaf(Arabic())
  {
    forall section | section in ArabicSections()
      ensures NoEmptyLeaf(ArabicSection(section))
    {
      if section == "nav" {
        ArNavNoEmptyLeaf();
      }
      else if section == "hero" {
        ArHeroNoEmptyLeaf();
      }
      else if section == "countdown" {
        ArCountdownNoEmptyLeaf();
      }
      else if section == "details" {
        ArDetailsNoEmptyLeaf();
      }
      else if section == "timeline" {
        ArTimelineNoEmptyLeaf();
      }
      else if section == "venue" {
        ArVenueNoEmptyLeaf();
      }
      else if section == "faq" {
        ArFaqNoEmptyLeaf();
      }
      else if section == "rsvp" {
        ArRsvpNoEmptyLeaf();
      }
      else if section == "footer" {
        ArFooterNoEmptyLeaf();
      }
      else if section == "music" {
        ArMusicNoEmptyLeaf();
      }
    }
  }

}
