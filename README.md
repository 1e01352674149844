# Portfolio core in Dafny

This project models the logic of a Next.js portfolio site: the parts that compute or keep state rather than draw.

- **Typewriter hook** (`useTypingEffect`). It types a text one character per timer tick, pauses, deletes the text one character per tick, and moves on to the next text. It loops, or stops on the last text when `loop` is off.
- **Scroll hook** (`useScrollProgress`). On each animation frame it publishes the scroll progress, the offset, the direction and an "is scrolled" flag. It keeps at most one frame requested at a time. The header hides while the page scrolls down past a threshold.
- **Contact-form schemas** (zod) and their two callers:
  - the client's `validateContactForm`, which folds the issues into a field-to-message dictionary;
  - the server's `validateApiContact`, which reports the first issue.

  The model covers JavaScript's `trim` and `toLowerCase` as the schemas use them, and the slug pattern.
- **`createFadeVariant`**: the hidden and visible animation states.
- **Skills data**: the rounded average level of a category, and the flattened skill list.
- **Projects data**: the featured filter, the category filter and the category tabs.

Layout, one module per source file:

| file | module | flavour |
|---|---|---|
| `typing_effect.dfy` | `TypingEffect` | spec functions `Step`/`Run` and class `TypingEffect` |
| `scroll_progress.dfy` | `ScrollProgress` | spec functions `Progress`/`DirectionOf`/`Compute` and class `ScrollTracker` |
| `string_rules.dfy` | `StringRules` | `trim` and `toLowerCase` |
| `slug.dfy` | `Slug` | the slug regular expression as a two-state matcher, and its meaning |
| `validations.dfy` | `Validations` | the zod chains; `CollectErrors` is the `forEach` loop |
| `animations.dfy` | `Animations` | `createFadeVariant` |
| `skills.dfy` | `Skills` | the data, `find`/`reduce`/`Math.round`, `flatMap` |
| `projects.dfy` | `Projects` | the data, `filter`, the tabs |
| `wrappers.dfy` | `Wrappers` | `Option` |

Timers and animation frames become explicit calls. `Tick` is one `setTimeout` firing and returns the delay that was scheduled for it. `OnScroll` is one scroll event and `OnFrame` is one frame callback. The window's readings (`scrollY`, `scrollHeight`, `innerHeight`) are parameters. zod's e-mail pattern is the parameter `isEmail`.

## Model

| member | source | states |
|---|---|---|
| `TypingEffect.TypingEffect.constructor` | src/hooks/useTypingEffect.ts:58-74 | Defaults are 50, 30, 2000 and 500 ms, `loop` and `autoStart` are true, and the effect starts empty at text 0. It is paused exactly when `autoStart` is false. |
| `TypingEffect.Step` | src/hooks/useTypingEffect.ts:76-123 | One timer firing keeps the invariant: the index names a text and the display is a prefix of that text. A completed effect shows the whole last text of a non-looping effect. `isPaused` is unchanged. |
| `TypingEffect.Run` | src/hooks/useTypingEffect.ts:76-123 | Any number of firings keeps the same invariant and leaves `isPaused` alone. |
| `TypingEffect.TypingEffect.Tick` | src/hooks/useTypingEffect.ts:76-123 | The new state is `Step` of the old one, and the delay is the one the effect schedules for that phase. Nothing fires while paused or complete, or without texts. Typing adds the next character of the current text. A fully typed text completes on the last text of a non-looping effect and starts deleting otherwise. Deleting removes exactly the last character. An empty display moves to text `(i + 1) % n`. |
| `TypingEffect.IdleIsFrozen` | src/hooks/useTypingEffect.ts:77 | A paused or completed effect, or one without texts, stays as it is however many ticks pass. |
| `TypingEffect.TypesOut` | src/hooks/useTypingEffect.ts:85-92 | From any prefix, the whole current text is on display after one tick per missing character. |
| `TypingEffect.DeletesOut` | src/hooks/useTypingEffect.ts:106-112 | The display empties after one tick per character, with the index unchanged. |
| `TypingEffect.FullCycle` | src/hooks/useTypingEffect.ts:83-123 | From the empty display at text `i`, exactly `2 * |text| + 2` ticks later the display is empty at text `(i + 1) % n`. This holds unless `i` is the last text of a non-looping effect. |
| `TypingEffect.Completes` | src/hooks/useTypingEffect.ts:95-99 | A non-looping effect types its last text, completes `|text| + 1` ticks later showing it, and never changes after that. |
| `TypingEffect.TypingEffect.Restart` | src/hooks/useTypingEffect.ts:140-148 | Back to the empty display at text 0 with every flag cleared, including `isPaused`. |
| `TypingEffect.TypingEffect.Pause` | src/hooks/useTypingEffect.ts:150-152 | Only `isPaused` changes, to true. |
| `TypingEffect.TypingEffect.Resume` | src/hooks/useTypingEffect.ts:154-156 | Only `isPaused` changes, to false. |
| `ScrollProgress.Progress` | src/hooks/useScrollProgress.ts:58-59 | 0 on a page that does not scroll. Never above 1, and exactly 1 at or past the bottom. Equal to `scrollY / docHeight` anywhere up to the bottom, including an overscroll above the top, where it is negative: there is no lower clamp. Not below 0 for a non-negative offset. |
| `ScrollProgress.DirectionOf` | src/hooks/useScrollProgress.ts:61-67 | No direction exactly when the offset is unchanged, `Down` exactly when it grew, `Up` exactly when it shrank. |
| `ScrollProgress.HeaderHiddenWhenScrollingDown` | src/components/layout/Header.tsx:28-31 | The header hides exactly when the offset grew since the last update and is beyond the threshold. |
| `ScrollProgress.ScrollTracker.constructor` | src/hooks/useScrollProgress.ts:42-52 | The threshold defaults to 50 and `disabled` to false. Starts with progress 0, offset 0, no direction, not scrolled, `lastScrollY` 0 and no frame pending. |
| `ScrollProgress.ScrollTracker.UpdateScroll` | src/hooks/useScrollProgress.ts:54-73 | Publishes `Compute` of the readings and the previous offset, records the offset and clears `ticking`. |
| `ScrollProgress.ScrollTracker.Mount` | src/hooks/useScrollProgress.ts:82-93 | A disabled tracker changes nothing. Otherwise it publishes `Compute` of the current readings immediately and attaches the listener. No frame is requested. |
| `ScrollProgress.ScrollTracker.OnScroll` | src/hooks/useScrollProgress.ts:75-80 | A frame is requested exactly when the listener is attached and none is pending, so at most one frame is ever pending. `ticking` is set exactly while one is. |
| `ScrollProgress.ScrollTracker.OnFrame` | src/hooks/useScrollProgress.ts:54-73 | The pending frame publishes the progress, the offset, the direction relative to the last recorded offset and `scrollY > threshold`. No frame is left pending. |
| `ScrollProgress.ScrollTracker.Unmount` | src/hooks/useScrollProgress.ts:90-92 | The listener is detached. A frame already requested is not cancelled. |
| `ScrollProgress.SameOffsetTwice` | src/hooks/useScrollProgress.ts:67 | Two frames at the same offset: the second publishes no direction. |
| `StringRules.Trim` | src/lib/validations.ts:30 | `trim` never lengthens a string. `TrimSpec` and `TrimEnds` pin down which slice it keeps. |
| `StringRules.TrimSpec` | src/lib/validations.ts:30 | `trim` returns the slice of its input between leading and trailing runs of whitespace. |
| `StringRules.TrimEnds` | src/lib/validations.ts:30 | The result of `trim` neither starts nor ends with whitespace. |
| `StringRules.TrimIdempotent` | src/lib/validations.ts:49 | Trimming twice is trimming once. |
| `StringRules.ToLower` | src/lib/validations.ts:36 | `toLowerCase` keeps the length; `ToLowerSpec` says what happens to each character. |
| `StringRules.ToLowerSpec` | src/lib/validations.ts:36 | `toLowerCase` keeps the length, maps each upper-case ASCII letter to its lower-case letter, leaves every other character alone, and leaves no upper-case letter. |
| `StringRules.TrimLowerCommute` | src/lib/validations.ts:36-37 | Lower-casing then trimming equals trimming then lower-casing. |
| `Slug.SlugPatternCorrect` | src/lib/validations.ts:132-134 | The pattern `^[a-z0-9]+(?:-[a-z0-9]+)*$` accepts exactly the non-empty strings of lower-case letters, digits and hyphens that neither start nor end with a hyphen and have no two hyphens in a row. |
| `Validations.ParseOptionalNumber` | src/lib/validations.ts:68 | An optional number passes exactly when absent or a number. Otherwise it gives one issue, at the field's path. |
| `Validations.ParseContactForm` | src/lib/validations.ts:25-50 | `safeParse` succeeds exactly on an object whose four fields raise no issue, and then delivers the parsed fields. A failure carries at least one issue. A non-object gives one issue, filed under "undefined". That issue is "Required" exactly when the input is `undefined`. |
| `Validations.ParseApiContact` | src/lib/validations.ts:63-69 | `safeParse` succeeds exactly on an object whose fields, honeypot and timestamp raise no issue. It then delivers the same form data as the form schema. A failure carries at least one issue. A non-object fails with the form schema's issue. |
| `Validations.ParseString` | src/lib/validations.ts:25-50 | A required or defaulted field with no issue yields a value, and every issue carries the field's path. |
| `Validations.NameRule` | src/lib/validations.ts:26-30 | The name passes exactly when it has 1 to 100 characters before trimming. An empty name gives the "required" message and an over-long one gives "Max 100 caractères". The value is the trimmed string. |
| `Validations.EmailRule` | src/lib/validations.ts:32-37 | The e-mail passes exactly when it is non-empty and e-mail shaped, both tested on the raw string. The issues are "required" when it is empty, then "invalid format" when it is not shaped. The value is lower-cased, then trimmed. |
| `Validations.SubjectRule` | src/lib/validations.ts:39-43 | An absent subject is "" with no issue. Over 200 characters gives one issue. The value is not trimmed. |
| `Validations.MessageRule` | src/lib/validations.ts:45-49 | The message passes exactly when it has 1 to 2000 characters before trimming, with the "required" or "too long" message otherwise. The value is the trimmed string. |
| `Validations.RequiredFieldType` | src/lib/validations.ts:25-50 | A missing required field gives exactly one "Required" issue. A value of another type gives exactly one "Expected string, received …" issue. |
| `Validations.HoneypotRule` | src/lib/validations.ts:65 | The honeypot passes when absent or empty and fails with "Nice try, bot" otherwise. |
| `Validations.SlugRule` | src/lib/validations.ts:132-134 | The slug schema accepts exactly the slugs, with its one message otherwise. |
| `Validations.ErrorMapHasKey` | src/lib/validations.ts:86-90 | The dictionary has an entry for exactly the fields that some issue is filed under. |
| `Validations.ErrorMapLastWins` | src/lib/validations.ts:86-90 | A field's entry holds the message of its last issue. |
| `Validations.ErrorMapIgnoresOthers` | src/lib/validations.ts:86-90 | Issues for other fields leave a field's entry as it was. |
| `Validations.CollectErrors` | src/lib/validations.ts:86-90 | The loop builds the dictionary: keys are exactly the fields with an issue, and each holds its field's last message. |
| `Validations.ValidateContactForm` | src/lib/validations.ts:81-95 | Success exactly when the form schema accepts, with the parsed data and no dictionary. Otherwise the issues' dictionary and no data. |
| `Validations.KeysOfFourFields` | src/lib/validations.ts:86-90 | For issues filed field by field, the dictionary's keys are exactly the fields with at least one issue. |
| `Validations.ErrorsNameFailingFields` | src/lib/validations.ts:81-95 | For an object, the client's dictionary has a key exactly for each form field that fails, and no other key. |
| `Validations.FirstMessage` | src/lib/validations.ts:106 | The reported message is never empty. It is the first issue's message when there is one and it is non-empty, and "Validation failed" otherwise. |
| `Validations.ValidateApiContact` | src/lib/validations.ts:100-112 | Success exactly when the API schema accepts, with the data and no error. Otherwise no data, and the error is `FirstMessage` of the parse's issues. |
| `Validations.UndefinedInput` | src/lib/validations.ts:82-106 | `undefined` is "Required": `validateApiContact` reports that message, and the client's dictionary is `{undefined: "Required"}`. |
| `Validations.ApiReportsFirstIssue` | src/lib/validations.ts:100-106 | When an object's first form issue has a non-empty message, that message is the error `validateApiContact` reports. |
| `Validations.ApiExtendsForm` | src/lib/validations.ts:63-69 | The API schema accepts exactly what the form schema accepts whose honeypot passes and whose timestamp is absent or a number. It then delivers the same form data. |
| `Validations.HoneypotRejects` | src/lib/validations.ts:100-108 | A non-empty honeypot always fails the API. When the form fields are fine, its message is the one reported. |
| `Validations.FormDataNormalised` | src/lib/validations.ts:25-50 | Accepted data has its name, e-mail and message trimmed, no upper-case ASCII letter in the e-mail, and a subject within 200 characters. The sent name, message and e-mail were strings within their limits. |
| `Validations.BlankNameAndMessageAccepted` | src/lib/validations.ts:26-30 | A name and a message of blanks are accepted and delivered empty, because "required" tests the raw string. |
| `Validations.EmptyEmailMessages` | src/lib/validations.ts:32-35 | An empty e-mail fails both its checks, and the client's dictionary shows the last one, the format message. |
| `Validations.EmptyEmailFirstMessage` | src/lib/validations.ts:100-106 | After a valid name, the API reports the first of those two, the "required" message. |
| `Validations.EmptyNameCase` | src/lib/validations.ts:26-30 | An empty name with a valid e-mail and message fails with just the name's "required" issue, and the dictionary is `{name: …}`. |
| `Validations.BadEmailCase` | src/lib/validations.ts:32-37 | A malformed non-empty e-mail with a valid name and message fails with just the format issue. |
| `Validations.LongMessageCase` | src/lib/validations.ts:45-49 | A message over 2000 characters with a valid name and e-mail fails with just the "too long" issue. |
| `Animations.CreateFadeVariant` | src/lib/animations.ts:279-304 | Both states use `y` for up and down and `x` for left and right. The hidden state is transparent, `distance` away on the side the element comes from (+ for up and left, − for down and right). The visible state is opaque at 0, with the given duration and delay. |
| `Animations.DefaultFade` | src/lib/animations.ts:280-285 | With no options: fade up from 30 over 0.6 with no delay. |
| `Animations.OppositeDirectionsMirror` | src/lib/animations.ts:287-291 | Opposite directions share the axis and mirror the hidden offset; the visible state is the same. |
| `Skills.Find` | src/data/skills.ts:165 | `find` gives nothing exactly when no category has the id, and otherwise the first category with it. |
| `Skills.Round` | src/data/skills.ts:169 | `Math.round` gives the integer `n` with `n - 0.5 <= x < n + 0.5`: the nearest integer, with halves rounded up. |
| `Skills.CategoryAverageLevel` | src/data/skills.ts:164-170 | An unknown id gives 0. A found category without skills gives `NaN`, and nothing else does. Otherwise the result is the integer within one half of the category's mean level. |
| `Skills.GetCategoryAverageLevel` | src/data/skills.ts:20-170 | On the shipped data the result is never `NaN`, and always within 0..100. |
| `Skills.UnknownCategoryIsZero` | src/data/skills.ts:164-166 | An unknown id gives 0. |
| `Skills.AverageOfFoundCategory` | src/data/skills.ts:164-170 | For a found category with skills, the result is within one half of the mean level, and within 0..100 when every level is. |
| `Skills.ShippedAverages` | src/data/skills.ts:20-170 | On the shipped data the averages are frontend 87, backend 84, devops 85 and soft 90. |
| `Skills.AllSkills` | src/data/skills.ts:173-180 | The flat list has one entry per skill of every category. |
| `Skills.AllSkillsAt` | src/data/skills.ts:173-180 | Skill `j` of category `c` sits right after all skills of the earlier categories, with its own fields plus the category's id and title. |
| `Skills.ShippedSkills` | src/data/skills.ts:20-161 | The shipped data has 18 skills, every category is non-empty, and every level is within 0..100. |
| `Projects.Filter` | src/data/projects.ts:185-190 | `filter` returns no more elements than it was given, and only elements that satisfy the condition. |
| `Projects.FilterIsSubsequence` | src/data/projects.ts:185-190 | The kept elements appear in their original order. |
| `Projects.FilterCount` | src/data/projects.ts:185-190 | Each kept value appears as often as in the input, and a dropped one not at all. |
| `Projects.SubsequenceNoLonger` | src/data/projects.ts:185-190 | A subsequence is no longer than the list it comes from. |
| `Projects.Featured` | src/data/projects.ts:185-186 | The featured filter is no longer than the list, and keeps only featured projects. |
| `Projects.InCategory` | src/data/projects.ts:189-190 | The category filter is no longer than the list, and keeps only projects of that category. |
| `Projects.FeaturedExactly` | src/data/projects.ts:185-186 | `getFeaturedProjects` gives exactly the featured projects, each as often as listed, in list order. |
| `Projects.InCategoryExactly` | src/data/projects.ts:189-190 | `getProjectsByCategory(c)` gives exactly the projects of category `c`, each as often as listed, in list order. |
| `Projects.CategoriesPartition` | src/data/projects.ts:189-190 | The five category filters share the list out: counted over all categories, each project appears as often as in the list. |
| `Projects.ShippedIdsUnique` | src/data/projects.ts:26-182 | The shipped project ids are pairwise distinct. |
| `Projects.NoFrontendProjects` | src/data/projects.ts:26-190 | No shipped project is "frontend", so that tab shows nothing. |
| `Projects.ShippedFeatured` | src/data/projects.ts:26-186 | The featured projects are the first six shipped ones. |
| `Projects.TabCategory` | src/data/projects.ts:193-198 | A tab id names a category exactly when it is that category's name. "all" names none. |
| `Projects.ShippedTabs` | src/data/projects.ts:193-198 | The first tab is "all" and every later tab names a category. No tab exists for "mobile" or "other". |

## Left out

- Rendering, layout, the React section components, the contact API route (HTTP, webhook, logging), the smooth-scroll and parallax wrappers, canvas effects and the experiences data are outside the modelled core.
- Real timers and frames: `setTimeout`, `requestAnimationFrame` and effect cleanup become the explicit calls `Tick`, `OnScroll`, `OnFrame` and `Unmount`. So does React's batching of `setState`.
- The `typeof window === "undefined"` server-rendering guard: the model always runs in a browser.
- `texts` or options changing while the typing effect runs: `config` is fixed when the object is made.
- `ScrollProgress.ScrollTracker.Mount` requires that no frame is pending. The hook mounts once, before any scroll event. A remount while a frame is pending is not modelled.
- Scroll offsets and heights are integers. Fractional `scrollY` values and the floating-point rounding of `scrollY / docHeight` are not modelled: `Progress` is exact real division.
- `createFadeVariant`'s numbers are reals, not IEEE doubles. The static variant objects of the animation library carry no logic and are not modelled.
- String lengths count characters, not UTF-16 code units, so a character outside the Basic Multilingual Plane counts once where JavaScript counts two.
- `StringRules.ToLower` lower-cases ASCII letters only. JavaScript's `toLowerCase` also maps other scripts' letters.
- zod's e-mail pattern, the URL pattern, `emailSchema` and `urlSchema` are not modelled. The e-mail test is the parameter `isEmail`.
- The value of `timestamp` is not carried in the API data, only its type check. zod's exact error texts for non-string values are modelled as "Expected string, received " followed by the value's type name, and for a non-object input as "Expected object, received " followed by its type name ("Required" for `undefined`).
- `Projects.Project` omits `longDescription`: no operation reads it.

Behaviour of the source worth knowing, which the model keeps:

- A found category without skills averages to `NaN`, since 0 / 0 is `NaN` in JavaScript (src/data/skills.ts:168-169). No shipped category is empty. See `Skills.CategoryAverageLevel`.
- The subject is not trimmed (src/lib/validations.ts:39-43).
- A name or message of blanks passes, because `min(1)` runs before `trim` (src/lib/validations.ts:26-30, 45-49). See `Validations.BlankNameAndMessageAccepted`.
- A non-empty honeypot makes `validateApiContact` fail with "Nice try, bot" (src/lib/validations.ts:65, 106). See `Validations.HoneypotRejects`.
- Unmounting the scroll hook removes its listener, but a frame already requested still runs (src/hooks/useScrollProgress.ts:90-92). See `ScrollProgress.ScrollTracker.Unmount`.
