# Strati question session, modelled in Dafny

Strati is an Android party game. The player picks a topic, then a "layer" (a graded set of
questions), and taps a Start/Next button. Each tap shows one question at random that has not yet
been shown in the current pass. It also starts a countdown from 30 to 0, one value per second,
that disables the button until it ends. When every question of the layer has been shown, the
next tap shows an end-of-layer message and starts a fresh pass.

This project models the core of that session in `MainActivity.kt`:

- `catalog.dfy` models the static catalog (`getTopicsList`) and the `find` lookups that resolve a
  topic id and a layer id.
- `loader.dfy` models `loadQuestionsFromRaw`. It picks the English resource for an English locale
  when the layer has one, trims every line, and turns any read failure into the empty pool.
- `routes.dfy` models the navigation routes built by `createRoute`. It also models how the
  question destination decodes its layer id with `toIntOrNull() ?: 0`.
- `session.dfy` models the advance logic in two forms:
  - pure draw functions (`FirstDraw`, `NextDraw`, `Advance`) with lemmas about whole passes;
  - a `QuestionScreen` class whose fields are the screen's remembered state. Its methods are the
    button's `onClick`, the `enabled` gate and the countdown effect, each proved against the
    pure functions.

Modelling choices:

- `random()` and `randomOrNull()` take a caller-supplied `draw: nat`, and the element at index
  `draw % size` is the one selected. `EveryUnshownQuestionCanBeDrawn` and
  `EveryQuestionCanBeDrawnFirst` show that every eligible question can be selected this way.
- Resource identifiers are their resource names, and Kotlin's `Int` is the newtype `int32`.
- `Question` is a data class, so two questions with the same text are equal. The shown set
  therefore counts a repeated line once, and a pass has one step per distinct question (`Elems`).
- Blank lines are kept: `line.trim()` turns a blank line into a question with empty text.
  `TrimEmptyIffBlank` states exactly which lines become empty questions.
- The countdown assigns the 31 values 30, 29, ..., 0 (`TimerCeiling` is 30), waiting one
  second after each, so the button stays disabled for about 31 seconds.

## Model

All source cells refer to `app/src/main/java/com/skippydream/strati/MainActivity.kt`.

| member | source | states |
|---|---|---|
| Catalog.Topics | app/src/main/java/com/skippydream/strati/MainActivity.kt:63-97 | `getTopicsList()`: the topics `default`, `love` and `thc`, in that order, with 4, 3 and 3 layers |
| Catalog.FindTopic | app/src/main/java/com/skippydream/strati/MainActivity.kt:361 | `topics.find { it.id == topicId }`: null exactly when no topic has the id; otherwise a topic of the list with that id |
| Catalog.Find | app/src/main/java/com/skippydream/strati/MainActivity.kt:361 | Kotlin `find`: null exactly when no element matches; otherwise the first matching element |
| Catalog.FindLayer | app/src/main/java/com/skippydream/strati/MainActivity.kt:434-435 | a found layer has the requested id and belongs to a topic with the requested id; an unknown topic id finds no layer |
| Catalog.CatalogWellFormed | app/src/main/java/com/skippydream/strati/MainActivity.kt:63-97 | topic ids are distinct; topic `default` has layers 1..4, `love` and `thc` have 1..3, in order; every layer has an English variant named `<resource>_en` |
| Catalog.FindLayerInCatalog | app/src/main/java/com/skippydream/strati/MainActivity.kt:63-97 | the question screen finds a layer if and only if the layer id lies between 1 and the topic's layer count (no layer for an unknown topic) |
| Loader.IsEnglish | app/src/main/java/com/skippydream/strati/MainActivity.kt:102 | `language.startsWith("en")`: the language code is at least two characters long and begins with `e`, `n` |
| Loader.ResourceToLoad | app/src/main/java/com/skippydream/strati/MainActivity.kt:101-108 | an English locale with an English variant loads the variant; otherwise the default resource is loaded |
| Loader.CatalogLocaleFallback | app/src/main/java/com/skippydream/strati/MainActivity.kt:101-108 | for every catalog layer: English loads `<resource>_en`, any other language loads the Italian default |
| Loader.IsWhitespace | app/src/main/java/com/skippydream/strati/MainActivity.kt:114 | `Char.isWhitespace()` as `trim()` uses it: space, tab, line feed and carriage return are whitespace; ASCII letters and digits are not; nothing above U+3000 is |
| Loader.TrimStart | app/src/main/java/com/skippydream/strati/MainActivity.kt:114 | the result is a suffix of the input; everything dropped is whitespace; the result does not start with whitespace |
| Loader.TrimEnd | app/src/main/java/com/skippydream/strati/MainActivity.kt:114 | the result is a prefix of the input; everything dropped is whitespace; the result does not end with whitespace |
| Loader.Trim | app/src/main/java/com/skippydream/strati/MainActivity.kt:114 | `trim()`: the result is a contiguous part of the line, has whitespace on neither end, and everything dropped on either side is whitespace |
| Loader.TrimIdempotent | app/src/main/java/com/skippydream/strati/MainActivity.kt:114 | trimming a trimmed line changes nothing |
| Loader.TrimEmptyIffBlank | app/src/main/java/com/skippydream/strati/MainActivity.kt:114 | a line trims to the empty text if and only if it is all whitespace (such a line is kept, not dropped) |
| Loader.ToQuestions | app/src/main/java/com/skippydream/strati/MainActivity.kt:113-115 | one question per line, in order, each holding the trimmed line |
| Loader.LoadQuestions | app/src/main/java/com/skippydream/strati/MainActivity.kt:100-119 | a failed read gives the empty list; a successful read gives one trimmed question per line of the chosen resource |
| Routes.NatToDigits | app/src/main/java/com/skippydream/strati/MainActivity.kt:128 | decimal digits of a natural number: non-empty, digits only, no leading zero |
| Routes.IntToString | app/src/main/java/com/skippydream/strati/MainActivity.kt:128 | `$layerId` interpolation: a non-empty string of digits, possibly led by `-` |
| Routes.DigitsValueOfNatToDigits | app/src/main/java/com/skippydream/strati/MainActivity.kt:128 | reading back the printed digits gives the number |
| Routes.ToIntOrNull | app/src/main/java/com/skippydream/strati/MainActivity.kt:183 | `toIntOrNull()` succeeds if and only if the string is an optional `-` or `+` followed by at least one digit and the signed value fits in `Int`; the result is that signed value |
| Routes.LayersSelectionRoute | app/src/main/java/com/skippydream/strati/MainActivity.kt:124-125 | the route is `layers_selection/` followed by exactly the topic id |
| Routes.QuestionRoute | app/src/main/java/com/skippydream/strati/MainActivity.kt:127-128 | the route is `question/`, the topic id, `/`, then a last segment that `toIntOrNull` parses back to the layer id |
| Routes.LayerIdArgument | app/src/main/java/com/skippydream/strati/MainActivity.kt:183 | a missing or unparsable layer id argument becomes 0; a parsable one is its value |
| Routes.LayerIdRoundTrip | app/src/main/java/com/skippydream/strati/MainActivity.kt:128 | every `Int` printed into a route is parsed back by `toIntOrNull` to itself, so the destination receives the layer id it was given |
| Routes.IntToStringInjective | app/src/main/java/com/skippydream/strati/MainActivity.kt:128 | distinct layer ids print as distinct strings |
| Routes.QuestionRouteInjective | app/src/main/java/com/skippydream/strati/MainActivity.kt:127-128 | for topic ids without `/`, the question route determines both the topic id and the layer id |
| Routes.LayersSelectionRouteInjective | app/src/main/java/com/skippydream/strati/MainActivity.kt:124-125 | the layers-selection route determines its topic id |
| Session.Remaining | app/src/main/java/com/skippydream/strati/MainActivity.kt:559 | a question is remaining if and only if it is in the pool and not shown |
| Session.RemainingOfNothingShown | app/src/main/java/com/skippydream/strati/MainActivity.kt:559 | with nothing shown the remaining list is the whole pool, in order |
| Session.FirstDraw | app/src/main/java/com/skippydream/strati/MainActivity.kt:548-554 | first tap: an empty pool leaves the shown set alone and shows the end message; otherwise a pool question is shown and becomes the only shown one |
| Session.NextDraw | app/src/main/java/com/skippydream/strati/MainActivity.kt:559-567 | later tap: if every pool question was shown, show the end message and empty the shown set; otherwise show an unshown pool question and add exactly it |
| Session.Advance | app/src/main/java/com/skippydream/strati/MainActivity.kt:544-568 | the shown set stays within the pool; a shown question is from the pool and, after the start, was not shown before in this pass; the end message is shown exactly when the shown set is emptied |
| Session.DisplayText | app/src/main/java/com/skippydream/strati/MainActivity.kt:550-565 | the text shown is the drawn question's text, or the end-of-layer message when nothing was drawn |
| Session.FirstDrawIsNextDrawFromEmpty | app/src/main/java/com/skippydream/strati/MainActivity.kt:548-567 | the first tap draws exactly as a later tap would with nothing shown |
| Session.EveryUnshownQuestionCanBeDrawn | app/src/main/java/com/skippydream/strati/MainActivity.kt:559-563 | every unshown pool question is selected by some draw |
| Session.EveryQuestionCanBeDrawnFirst | app/src/main/java/com/skippydream/strati/MainActivity.kt:548-551 | every pool question is selected by some first draw |
| Session.Replay | app/src/main/java/com/skippydream/strati/MainActivity.kt:555-567 | a run of later taps yields one displayed outcome per tap |
| Session.NextDrawShrinksUnshown | app/src/main/java/com/skippydream/strati/MainActivity.kt:559-563 | while some pool question is unshown, a tap shows one of them and the unshown set loses exactly that one |
| Session.NothingUnshownEndsPass | app/src/main/java/com/skippydream/strati/MainActivity.kt:564-566 | once nothing is unshown, the tap shows the end message and empties the shown set |
| Session.PassShowsEachUnshownOnce | app/src/main/java/com/skippydream/strati/MainActivity.kt:555-567 | from any reachable shown set, the next (unshown count) taps show each unshown question exactly once, and the tap after that shows the end message and empties the shown set |
| Session.FullPass | app/src/main/java/com/skippydream/strati/MainActivity.kt:555-567 | from a fresh pass, the first n taps (n distinct questions) show no question twice and show every pool question; tap n+1 shows the end message and starts a new pass |
| Session.PassCoversPool | app/src/main/java/com/skippydream/strati/MainActivity.kt:555-567 | a pass over the whole pool has no repetition and contains exactly the pool's questions |
| Session.CountdownValues | app/src/main/java/com/skippydream/strati/MainActivity.kt:457-458 | `from downTo 0`: from+1 values, the k-th being from-k |
| Session.ScreenPool | app/src/main/java/com/skippydream/strati/MainActivity.kt:434-452 | a layer id outside 1..(the topic's layer count), including any id under an unknown topic, gives the empty pool; otherwise the pool is what the loader reads for the layer with that id, empty when the read fails |
| Session.QuestionScreen.constructor | app/src/main/java/com/skippydream/strati/MainActivity.kt:437-452 | the remembered initial state (nothing shown, not started, timer off at 0) with the pool loaded for the topic and layer |
| Session.QuestionScreen.AdvanceEnabled | app/src/main/java/com/skippydream/strati/MainActivity.kt:574 | the button is enabled only when the pool is non-empty and no countdown is running |
| Session.QuestionScreen.OnClick | app/src/main/java/com/skippydream/strati/MainActivity.kt:540-573 | the session starts, the timer runs, the button is disabled, and the shown set and displayed text are those of `Advance`; the state invariant is kept |
| Session.QuestionScreen.Press | app/src/main/java/com/skippydream/strati/MainActivity.kt:574 | a tap on a disabled button changes nothing; on an enabled one it starts the session and the timer, disables the button, keeps the timer value, and draws as `Advance` |
| Session.QuestionScreen.Countdown | app/src/main/java/com/skippydream/strati/MainActivity.kt:455-463 | an active timer takes the values 30 down to 0, then stops; afterwards the button is enabled if and only if the pool is non-empty |
| Session.TapAndWait | app/src/main/java/com/skippydream/strati/MainActivity.kt:455-574 | one tap followed by the countdown it starts: the timer takes the values 30 down to 0 and ends off at 0, and the screen shows what `Advance` draws |
| Session.OpenAndTapEmpty | app/src/main/java/com/skippydream/strati/MainActivity.kt:431-452 | a screen whose pool is empty (its resource is empty or cannot be read, or the catalog has no such topic or layer) keeps the button disabled, and a tap on it leaves every state variable at its initial value; the screen stays valid, so it can be tapped again with the same result |

## Left out

- The Compose UI is not modelled: layout, the topic and layer lists, the GitHub repository link, the instructions card, the PayPal donation buttons, the language switcher, the timer's rendering and the button's label. Only the state that decides what is shown and when the button is enabled is kept.
- Session.OpenAndTapEmpty: for an unknown topic or layer id it states only the screen's state variables (empty pool, closed gate). In the app, the header calls `stringResource(topic?.nameResId ?: 0)` and `stringResource(layer?.nameResId ?: 0)` (MainActivity.kt:478, :483), and resource id 0 does not exist, so that screen throws while composing and never shows a button. The app builds its routes only from catalog ids (:225, :387), so this path is not reached through its own navigation. For an empty or unreadable resource the header renders and the disabled button is real.
- The navigation host and its route-template matching are not modelled. The routes are built and the layer id argument is decoded (`LayerIdArgument`), but extracting arguments from a route is left to Android.
- Reading a raw resource is a parameter (`read`) that returns the resource's lines or a failure. The Android resource system, buffered reading and the exception types are not modelled.
- The display locale is a parameter (`language`), and the end-of-layer text is a constructor parameter. The localized strings themselves are not modelled.
- Coroutine timing is not modelled: the `delay(1000)` before each draw, the one-second ticks, and the window in which `isLoading` is true. `OnClick` runs atomically; the button is disabled for that whole window anyway. Cancelling the effects by leaving the screen is not modelled either.
- The load effect is folded into the constructor, and re-keying it on a new topic or layer id is not modelled. Each screen is built for one topic and layer, and the button stays disabled until the pool is non-empty.
- How uniformly `random()` draws is not modelled, only which question a given draw selects.
- Routes.ToIntOrNull: accepts ASCII digits only, while Kotlin's `toIntOrNull` also accepts other Unicode decimal digits.
- Session.QuestionScreen.OnClick: has the state invariant as a precondition; the source can also start from states the invariant excludes, but the enabled gate means no tap reaches them.
- The first-tap branch on an empty pool (the end message without starting a pass) is stated in `FirstDraw` and `Advance`. The screen never reaches it, because `Press` runs `onClick` only when the pool is non-empty.
