# Wedding website: the logic inside the components

The site is a bilingual (English and Arabic) single-page wedding invitation.
Most of it is markup and animation. This project models the few pieces that
carry real logic and proves what they promise:

- **Language state and translation lookup.** The provider starts from the
  stored preference. On each change it persists the language and sets the
  document's `dir` and `lang`. `t(key)` splits the key on dots, walks the
  current language's nested table (objects, arrays, string leaves) and falls
  back to the key. Files: `language_context.dfy`, `dictionary.dfy`,
  `translations.dfy` (both tables, in full), `strings.dfy` (`split`,
  `String(n)`, array-index keys, `padStart`).
- **The countdown.** A millisecond difference is broken into days, hours,
  minutes and seconds. Each tick updates the state only while the
  difference is positive. The values are shown padded to two digits
  (`countdown_timer.dfy`).
- **The RSVP form.** The schema's field rules, the payload with its
  defaults, and the submit handler. The handler marks the section
  submitted and raises a success toast only when the send succeeds; a
  failed send raises an error toast (`rsvp_section.dfy`).
- **The timeline.** Icons are chosen by name with a fallback. Cards
  alternate left and right, mirrored in right-to-left layout. Each
  event's text keys are built from its index (`timeline_section.dfy`).
- **The language switcher.** It flips English and Arabic and labels the
  button (`language_switcher.dfy`).
- **The music player.** A state machine over five fields and the audio
  element it drives (`music_player.dfy`).

Stateful parts are classes whose methods update fields in place:
`LanguageProvider`, `Countdown`, `RsvpForm` and `Player`. Everything else
is functions over datatypes, with lemmas stating the properties.

Three behaviours of the code are worth stating plainly, and the model
follows them:
- A stored language outside English and Arabic is adopted unchecked; it is
  not rejected.
- Once the wedding instant has passed, the countdown keeps its last value.
  It does not switch to a distinct "expired" state.
- The walk behind `t` indexes arrays as well as objects.

## Model

| member | source | states |
|---|---|---|
| LanguageContext.InitialLanguage | src/react-app/contexts/LanguageContext.tsx:15-18 | The first language is the stored `wedding-language` value when it is non-empty, whatever it is; otherwise, or when nothing is stored, it is English. |
| LanguageContext.IsRtl | src/react-app/contexts/LanguageContext.tsx:20 | `isRTL`: the layout is right to left exactly for Arabic. |
| LanguageContext.Direction | src/react-app/contexts/LanguageContext.tsx:20-24 | `dir` is `rtl` exactly when the language is Arabic, and `ltr` otherwise. |
| LanguageContext.TableOf | src/react-app/contexts/LanguageContext.tsx:30 | A table exists exactly for `en` and `ar`; any other language has none. |
| LanguageContext.Translate | src/react-app/contexts/LanguageContext.tsx:28-35 | `t(key)` is the node the dot-separated walk through the language's table reaches when that node is truthy, and the key itself otherwise. It is never the empty string unless the key is. |
| LanguageContext.UseLanguage | src/react-app/contexts/LanguageContext.tsx:44-50 | Inside a provider it returns the provider's context. Outside one it fails with the provider error message. |
| LanguageContext.LanguageProvider.constructor | src/react-app/contexts/LanguageContext.tsx:15-26 | Mounting starts in the initial language. The effect then stores that language and sets `dir` and `lang`. |
| LanguageContext.LanguageProvider.ApplyEffect | src/react-app/contexts/LanguageContext.tsx:22-26 | The effect writes the language to storage, changes no other storage entry, and leaves `dir` and `lang` in step with the language. |
| LanguageContext.LanguageProvider.SetLanguage | src/react-app/contexts/LanguageContext.tsx:15-26 | Choosing `en` or `ar` makes it the language, stores it and leaves the document in step. |
| LanguageContext.LanguageProvider.T | src/react-app/contexts/LanguageContext.tsx:28-35 | The loop that steps through the key's segments computes exactly `Translate` of the current language. |
| LanguageContext.RestartRestoresLanguage | src/react-app/contexts/LanguageContext.tsx:15-18 | A visit after the effect has stored a non-empty language starts in that language. |
| LanguageContext.UnknownLanguageShowsKeys | src/react-app/contexts/LanguageContext.tsx:17 | With a stored language that has no table, every key shows as itself. |
| LanguageContext.ResolvesInBoth | src/react-app/contexts/LanguageContext.tsx:52-318 | A key resolves in English exactly when it resolves in Arabic, and to nodes of the same shape. No key is missing from just one language. |
| LanguageContext.NavHome | src/react-app/contexts/LanguageContext.tsx:55 | `t("nav.home")` is "Home" in English and "الرئيسية" in Arabic. |
| LanguageContext.MissingKeyShowsItself | src/react-app/contexts/LanguageContext.tsx:31-34 | `t("nav.doesNotExist")` is the key itself in both languages. |
| LanguageContext.FaqItems | src/react-app/contexts/LanguageContext.tsx:117-150 | `t("faq.items")` returns the array of questions, not the key: eight items in each language. |
| Dictionary.Step | src/react-app/contexts/LanguageContext.tsx:32 | `value?.[k]`: it misses on `undefined` and on a string, on an object it hits exactly when `k` is one of its keys and then yields that entry, and on an array it takes the item `k` names as a decimal index. |
| Dictionary.IndexStep | src/react-app/contexts/LanguageContext.tsx:32 | On an array a segment hits exactly when it is the canonical decimal of an index in range, and it then yields that item (the array's own `length` property is not modelled, see below). |
| Dictionary.Walk | src/react-app/contexts/LanguageContext.tsx:30-33 | The loop applies `value?.[k]` once per segment: an empty path leaves the value as it is, a walk from `undefined` stays `undefined`, and a non-empty walk from a string misses. |
| Dictionary.WalkAppend | src/react-app/contexts/LanguageContext.tsx:31-33 | Walking a path is walking its prefix, then its suffix. |
| Dictionary.MissOnPrefix | src/react-app/contexts/LanguageContext.tsx:32 | Once a step misses, every longer path misses too. |
| Dictionary.OrKey | src/react-app/contexts/LanguageContext.tsx:34 | The fallback `or`: a truthy node is kept; `undefined` and the empty string give the key. |
| Dictionary.Resolve | src/react-app/contexts/LanguageContext.tsx:29-34 | The result is the node the walk reached when that node is truthy, and the key otherwise. |
| Dictionary.ResolveAgrees | src/react-app/contexts/LanguageContext.tsx:52-318 | Two tables of the same shape with no empty strings resolve exactly the same keys, to nodes of the same shape. |
| Strings.Split | src/react-app/contexts/LanguageContext.tsx:29 | `split(".")` gives at least one segment, and no segment contains a dot. |
| Strings.JoinSplit | src/react-app/contexts/LanguageContext.tsx:29 | Joining the segments with the separator gives back the key. |
| Strings.SplitJoin | src/react-app/contexts/LanguageContext.tsx:29 | Splitting a join of dot-free segments gives back the segments. |
| Strings.NatToString | src/react-app/components/wedding/CountdownTimer.tsx:59 | `String(n)` is a canonical decimal whose value is `n`. |
| Strings.CanonicalDecimalRoundTrip | src/react-app/contexts/LanguageContext.tsx:32 | A canonical decimal is the rendering of its own value, so each array index has exactly one key. |
| Strings.ParseIndex | src/react-app/contexts/LanguageContext.tsx:32 | A key names an array index exactly when it is a canonical decimal. |
| Strings.IndexRoundTrip | src/react-app/contexts/LanguageContext.tsx:32 | The rendering of `n` reads back as index `n`. |
| Strings.PadStart | src/react-app/components/wedding/CountdownTimer.tsx:59 | `padStart`: the length is the larger of the width and the input's length, the input is the suffix, and the rest is fill. |
| Strings.LeadingZerosAddNothing | src/react-app/components/wedding/CountdownTimer.tsx:59 | Leading zeros leave a number's value unchanged. |
| Strings.PadTwo | src/react-app/components/wedding/CountdownTimer.tsx:59 | `String(n).padStart(2, "0")`: at least two digits denoting `n`. Two or more digits are left as they are; one digit gets a leading zero. |
| Translations.Tables | src/react-app/contexts/LanguageContext.tsx:52-318 | `translations`: exactly the two languages `en` and `ar`, each mapped to its table. |
| Translations.English | src/react-app/contexts/LanguageContext.tsx:53-185 | The English table, section by section and leaf for leaf as the source writes it. |
| Translations.Arabic | src/react-app/contexts/LanguageContext.tsx:186-317 | The Arabic table, section by section and leaf for leaf as the source writes it. |
| Translations.TablesSameShape | src/react-app/contexts/LanguageContext.tsx:52-318 | The English and Arabic tables have the same keys at every level, arrays of the same length, and strings in the same places. |
| Translations.EnglishNoEmptyLeaf | src/react-app/contexts/LanguageContext.tsx:53-185 | No English text is the empty string, so no found text falls back to its key. |
| Translations.ArabicNoEmptyLeaf | src/react-app/contexts/LanguageContext.tsx:186-317 | No Arabic text is the empty string. |
| CountdownTimer.Breakdown | src/react-app/components/wedding/CountdownTimer.tsx:23-29 | For a positive difference, hours, minutes and seconds are in range. The four fields count the difference's whole seconds, so the difference lies within that second. |
| CountdownTimer.LexLeIsTimeOrder | src/react-app/components/wedding/CountdownTimer.tsx:25-28 | For in-range breakdowns, comparing the fields lexicographically is the same as comparing the time they denote. |
| CountdownTimer.BreakdownMonotone | src/react-app/components/wedding/CountdownTimer.tsx:20-31 | A smaller difference never gives a lexicographically larger breakdown. |
| CountdownTimer.BreakdownUnique | src/react-app/components/wedding/CountdownTimer.tsx:25-28 | The breakdown is the only in-range tuple for its number of seconds. |
| CountdownTimer.OneDay | src/react-app/components/wedding/CountdownTimer.tsx:25-28 | 86400000 ms is one day, zero hours, zero minutes and zero seconds. |
| CountdownTimer.AlmostAnHour | src/react-app/components/wedding/CountdownTimer.tsx:25-28 | 3599000 ms is 0 days, 0 hours, 59 minutes and 59 seconds. |
| CountdownTimer.Countdown.constructor | src/react-app/components/wedding/CountdownTimer.tsx:12-17 | Before the first computation all four fields are zero and no interval runs. |
| CountdownTimer.Countdown.Tick | src/react-app/components/wedding/CountdownTimer.tsx:20-31 | A tick only happens while the interval is registered. While the wedding is ahead the state becomes the breakdown of the difference; otherwise it keeps its value and never goes negative. |
| CountdownTimer.Countdown.Mount | src/react-app/components/wedding/CountdownTimer.tsx:33-34 | Mounting starts the interval and computes once straight away. |
| CountdownTimer.Countdown.Unmount | src/react-app/components/wedding/CountdownTimer.tsx:36 | The cleanup stops the interval and keeps the shown time. |
| CountdownTimer.Cells | src/react-app/components/wedding/CountdownTimer.tsx:39-59 | Four cells: Days, Hours, Minutes, Seconds in that order. Each text is exactly `String(v).padStart(2, "0")` of its field, so it is at least two digits and denotes the field. |
| CountdownTimer.CellPadding | src/react-app/components/wedding/CountdownTimer.tsx:59 | Values of 10 and above are shown as `String(n)`, smaller ones with a leading zero. |
| CountdownTimer.CellWidths | src/react-app/components/wedding/CountdownTimer.tsx:26-28 | For an in-range breakdown, hours, minutes and seconds take exactly two characters. |
| RsvpSection.CustomMessage | src/react-app/components/wedding/RSVPSection.tsx:14-18 | Exactly three issues carry the schema's own message: a short name gives "Please enter your full name", an invalid email "Please enter a valid email address" and a missing attendance "Please select your attendance". |
| RsvpSection.Issues | src/react-app/components/wedding/RSVPSection.tsx:13-22 | Field by field, an issue is raised exactly when that field breaks its rule. Name: 2 to 100 characters. Email: valid and at most 255. Attendance: `yes` or `no`. Dietary restrictions: at most 500. Message: at most 1000. Guest count: never. |
| RsvpSection.AcceptsIff | src/react-app/components/wedding/RSVPSection.tsx:13-22 | The schema accepts the data exactly when every field rule holds. |
| RsvpSection.OneLetterNameRefused | src/react-app/components/wedding/RSVPSection.tsx:14 | A one-letter name is refused, and the first issue is "Please enter your full name". |
| RsvpSection.OrDefault | src/react-app/components/wedding/RSVPSection.tsx:57-59 | The fallback `or`: a non-empty answer is kept; a missing or empty one gives the fallback. |
| RsvpSection.BuildPayload | src/react-app/components/wedding/RSVPSection.tsx:53-60 | The payload copies name, email and attendance unchanged. A non-empty optional answer is sent exactly as typed, and none of the optional fields is sent empty. |
| RsvpSection.PayloadDefaults | src/react-app/components/wedding/RSVPSection.tsx:57-59 | For each optional field, an unset or empty answer is exactly the case that sends "N/A", "None" or "No message" (unless the guest typed that very text). |
| RsvpSection.EmptyIsUnset | src/react-app/components/wedding/RSVPSection.tsx:57-59 | Leaving optional answers empty sends the same payload as leaving them unset. |
| RsvpSection.SuccessToast | src/react-app/components/wedding/RSVPSection.tsx:66-72 | The success toast is not styled as an error. |
| RsvpSection.SuccessToastTexts | src/react-app/components/wedding/RSVPSection.tsx:66-72 | The success toast's title is `t("rsvp.success.title")`; its text is `t("rsvp.success.message")` for "yes" and `t("rsvp.success.declined")` for any other answer. |
| RsvpSection.ErrorToast | src/react-app/components/wedding/RSVPSection.tsx:75-79 | The failure toast is styled as an error, with the fixed English title "Error" and its fixed description. |
| RsvpSection.Render | src/react-app/components/wedding/RSVPSection.tsx:120-133 | The confirmation card replaces the form exactly once the section is submitted. It shows the success title and the attending guest's message. |
| RsvpSection.RsvpForm.constructor | src/react-app/components/wedding/RSVPSection.tsx:31 | The section starts unsubmitted, with no toast and nothing sent. |
| RsvpSection.RsvpForm.OnSubmit | src/react-app/components/wedding/RSVPSection.tsx:48-81 | The payload is sent. On success the section becomes submitted and the toast text depends on attendance. On failure `isSubmitted` is unchanged and the error toast is raised. |
| RsvpSection.RsvpForm.HandleSubmit | src/react-app/components/wedding/RSVPSection.tsx:135 | The handler runs exactly when the schema accepts the data. Otherwise nothing is sent and nothing changes. |
| RsvpSection.EnglishSuccessText | src/react-app/contexts/LanguageContext.tsx:171-175 | The three `rsvp.success.*` keys resolve to their English texts. |
| RsvpSection.ArabicSuccessText | src/react-app/contexts/LanguageContext.tsx:303-307 | The three `rsvp.success.*` keys resolve to their Arabic texts. |
| RsvpSection.DeclinedCardShowsAttendingText | src/react-app/components/wedding/RSVPSection.tsx:66-72 | After a decline the card's title matches the toast's, but its message is not the declined text the toast shows. |
| RsvpSection.MessageIsNotDeclined | src/react-app/contexts/LanguageContext.tsx:171-175 | In both languages the text for a guest who comes differs from the text for a guest who declines. |
| TimelineSection.IconMap | src/react-app/components/wedding/TimelineSection.tsx:8-14 | `iconMap`: the five icon names and their icons. |
| TimelineSection.IconFor | src/react-app/components/wedding/TimelineSection.tsx:57 | A name in the icon map gives its icon; any other name gives the heart. |
| TimelineSection.EventIcons | src/react-app/data/weddingData.ts:49-73 | The `icon` field of the five events, in the data's order. |
| TimelineSection.EventIconsMapped | src/react-app/data/weddingData.ts:49-73 | All five icon names in the event data are in the map, and the five events show five different icons. |
| TimelineSection.UnknownIconIsHeart | src/react-app/components/wedding/TimelineSection.tsx:8-14 | A name missing from the map, including the empty name and a wrongly capitalised one, shows the heart. |
| TimelineSection.IsLeft | src/react-app/components/wedding/TimelineSection.tsx:58 | `isLeft`: even positions left to right, odd positions right to left. |
| TimelineSection.Mirrored | src/react-app/components/wedding/TimelineSection.tsx:58 | Left to right, a card is on the left exactly at an even index. Right to left, every card moves to the other side. |
| TimelineSection.Sides | src/react-app/components/wedding/TimelineSection.tsx:56-58 | The first card sits on the left unless the layout is right to left, and consecutive cards always alternate. |
| TimelineSection.SidesMirror | src/react-app/components/wedding/TimelineSection.tsx:58 | The right-to-left sides are the left-to-right sides, negated. |
| TimelineSection.EventKeys | src/react-app/components/wedding/TimelineSection.tsx:16 | `eventKeys`: the five event keys in the data's order. |
| TimelineSection.EventKeyAt | src/react-app/components/wedding/TimelineSection.tsx:16 | Index `i` gives the `i`-th event key; past the end the template reads `undefined`. |
| TimelineSection.EventKeysMatchTables | src/react-app/components/wedding/TimelineSection.tsx:16 | There are five keys, one per event in the data, and they are exactly the events each table has. |
| TimelineSection.EventTextKey | src/react-app/components/wedding/TimelineSection.tsx:98-101 | The template `timeline.events.${eventKey}.${field}`. |
| TimelineSection.TitleKey | src/react-app/components/wedding/TimelineSection.tsx:98 | The key of an event's title. |
| TimelineSection.DescriptionKey | src/react-app/components/wedding/TimelineSection.tsx:101 | The key of an event's description. |
| TimelineSection.EventTextKeySplits | src/react-app/components/wedding/TimelineSection.tsx:98-101 | An event's title and description keys split into `timeline`, `events`, the event key and the field. |
| TimelineSection.AllEventKeysResolve | src/react-app/contexts/LanguageContext.tsx:83-104 | All ten keys the section builds resolve to non-empty texts in both languages: `t` returns exactly what the walk through the table reaches, never the key fallback. |
| TimelineSection.SixthEventShowsKey | src/react-app/components/wedding/TimelineSection.tsx:59 | A sixth event has no key, so in both languages its title would show the raw key `timeline.events.undefined.title`. |
| LanguageSwitcher.NextLanguage | src/react-app/components/wedding/LanguageSwitcher.tsx:9 | A click selects Arabic exactly from English, and English from anything else. |
| LanguageSwitcher.AriaLabel | src/react-app/components/wedding/LanguageSwitcher.tsx:11 | The accessible name is "Switch to Arabic" exactly when the language is English, and "التبديل إلى الإنجليزية" otherwise. |
| LanguageSwitcher.ButtonLabel | src/react-app/components/wedding/LanguageSwitcher.tsx:14 | The button reads "العربية" exactly when the language is English, and "English" otherwise. |
| LanguageSwitcher.LabelNamesNextLanguage | src/react-app/components/wedding/LanguageSwitcher.tsx:14 | The visible label names, in its own script, the language a click will select. |
| LanguageSwitcher.TwoClicks | src/react-app/components/wedding/LanguageSwitcher.tsx:9 | Two clicks from English or Arabic restore the language. From an unrecognised stored value they end in Arabic. |
| LanguageSwitcher.ClickFlipsDirection | src/react-app/components/wedding/LanguageSwitcher.tsx:9 | Between the two languages every click flips the writing direction. |
| LanguageSwitcher.Click | src/react-app/components/wedding/LanguageSwitcher.tsx:9 | A click sets and stores the next language and keeps the document in step. |
| LanguageSwitcher.ClickTwice | src/react-app/components/wedding/LanguageSwitcher.tsx:9 | Two clicks leave the provider's language as it was, stored. |
| MusicPlayer.EffectiveVolume | src/react-app/components/wedding/MusicPlayer.tsx:31 | The audio volume and the slider value are zero while muted and the chosen volume otherwise. |
| MusicPlayer.MutedIconShown | src/react-app/components/wedding/MusicPlayer.tsx:161 | The crossed-out speaker shows when muted or at volume zero. |
| MusicPlayer.MutedIconMeansSilence | src/react-app/components/wedding/MusicPlayer.tsx:161 | The crossed-out speaker shows exactly when the effective volume is zero. |
| MusicPlayer.PromptVisible | src/react-app/components/wedding/MusicPlayer.tsx:84 | The prompt is on screen while `showPrompt` holds and the guest has not interacted. |
| MusicPlayer.NoPromptAfterInteraction | src/react-app/components/wedding/MusicPlayer.tsx:84 | The prompt shows exactly when `showPrompt` holds and the guest has not interacted, so after any interaction it never shows. |
| MusicPlayer.Player.constructor | src/react-app/components/wedding/MusicPlayer.tsx:8-12 | The player starts paused and unmuted, at volume 0.3, with the prompt showing. |
| MusicPlayer.Player.ApplyVolume | src/react-app/components/wedding/MusicPlayer.tsx:29-33 | The effect puts the effective volume into the audio element, if there is one, and changes nothing else. |
| MusicPlayer.Player.Mount | src/react-app/components/wedding/MusicPlayer.tsx:16-19 | Mounting creates a looping, paused audio element at the effective volume. |
| MusicPlayer.Player.Unmount | src/react-app/components/wedding/MusicPlayer.tsx:21-26 | The cleanup pauses the audio element and drops it. |
| MusicPlayer.Player.PlayClick | src/react-app/components/wedding/MusicPlayer.tsx:35-52 | Without an audio element nothing happens. Otherwise the prompt is dismissed for good, a playing track pauses, and a paused one plays only if `play()` succeeds. The invariant `Valid` keeps an existing audio element looping. |
| MusicPlayer.Player.PromptClick | src/react-app/components/wedding/MusicPlayer.tsx:54-66 | The prompt is dismissed for good, and playback starts when there is an audio element and `play()` succeeds. The invariant `Valid` keeps an existing audio element looping. |
| MusicPlayer.Player.Skip | src/react-app/components/wedding/MusicPlayer.tsx:118-121 | Skip dismisses the prompt for good and plays nothing. The invariant `Valid` keeps an existing audio element looping. |
| MusicPlayer.Player.VolumeChange | src/react-app/components/wedding/MusicPlayer.tsx:68-74 | The new volume is stored. Mute is lifted only when the new volume is above zero; a change to zero leaves mute as it was. The invariant `Valid` keeps an existing audio element looping. |
| MusicPlayer.Player.ToggleMute | src/react-app/components/wedding/MusicPlayer.tsx:76-78 | Mute flips, and the audio follows at the new effective volume. The invariant `Valid` keeps an existing audio element looping. |
| MusicPlayer.ToggleMuteTwice | src/react-app/components/wedding/MusicPlayer.tsx:76-78 | Two toggles restore mute and the audio volume. |

## Left out

- Rendering, layout, CSS classes and animation (framer-motion, in-view triggers, scroll listeners) carry no stateable logic. Neither do the presentation-only components: the page, details, FAQ, footer, hero and navigation.
- The venue map URL is left out. It is built from floating-point coordinates and a foreign URL encoder.
- The mail service (`emailjs.send`) is a boolean parameter saying whether the send succeeded. The service, template and key identifiers are not modelled.
- The email-format check of the schema library is an opaque predicate parameter, `isEmail`.
- The form library's registration and error display are left out. Only the schema's verdict and the handler it guards are modelled.
- The toast hook is a list of the toasts raised. Their display and dismissal are left out.
- `setInterval`/`clearInterval` scheduling is a `running` flag plus a `Tick(now)` method per firing. `new Date()` is the `now` parameter, and the wedding instant is the `target` field.
- The countdown's float division, `%` and `Math.floor` are integer division and modulus. They agree for the non-negative millisecond differences involved, which stay far below 2^53.
- The countdown captions are the component's fixed English words. No translation is involved.
- The `Audio` element and its asynchronous `play()` are fields of the player plus a `playSucceeds` parameter. The track URL and the `console.error` logging are left out.
- MusicPlayer.Player.VolumeChange: the volume is a `real` in [0, 1] as the slider reports it. The slider's 0.1 step and `parseFloat` are not modelled.
- Strings count characters, not UTF-16 code units, so the schema's length limits differ for text outside the Basic Multilingual Plane.
- In `t`, segments on a string leaf (indexing a character) and inherited object properties are misses. JavaScript prototype lookups are not modelled.
- Dictionary.IndexStep: an array's own `length` property is a miss in the model. In JavaScript `t("faq.items.length")` reaches the number 8, which is truthy, so `t` returns it; a table node cannot hold a number.
- `localStorage` is a map and `document.documentElement` is two fields of the provider. Storage failures are not modelled.
- RsvpSection.PayloadDefaults: the if-and-only-if holds except when the guest typed the fallback text itself ("N/A", "None", "No message"), which the payload cannot tell apart from an unset answer.
