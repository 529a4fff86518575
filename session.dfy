/**
 * The question-session controller of `QuestionScreen` (MainActivity.kt, lines 431-574):
 * the pool loaded for a topic and layer, the Start/Next advance that draws a question not
 * yet shown in the current pass, and the countdown that keeps the button disabled between
 * draws.
 *
 * `random()` and `randomOrNull()` are modelled by a `draw: nat` the caller supplies: the
 * list element at index `draw % size` is the one `Random.nextInt(size)` would select.
 * EveryUnshownQuestionCanBeDrawn shows no eligible question is out of reach this way.
 */
module Session {
  import opened Options
  import opened Model
  import opened Catalog
  import opened Loader

  /** The distinct questions of a pool: since `Question` is a data class, equal lines are one. */
  function Elems(pool: seq<Question>): set<Question> {
    set q | q in pool
  }

  /** `questions.filter { it !in questionsShown }`: every copy of every question not yet shown. */
  function Remaining(pool: seq<Question>, shown: set<Question>): (r: seq<Question>)
    ensures forall q :: q in r <==> q in pool && q !in shown
  {
    if pool == [] then []
    else
      var rest := Remaining(pool[1..], shown);
      assert pool == [pool[0]] + pool[1..];
      if pool[0] in shown then rest else [pool[0]] + rest
  }

  /**
   * The outcome of one advance: the question now current, or None for the end-of-layer
   * message, and the new set of questions shown in this pass.
   */
  datatype Draw = Draw(current: Option<Question>, shown: set<Question>)

  /**
   * The first advance (lines 548-554): `questions.randomOrNull()`; a drawn question becomes
   * the only one shown, and an empty pool shows the end-of-layer message instead.
   */
  function FirstDraw(pool: seq<Question>, shown: set<Question>, draw: nat): (d: Draw)
    ensures pool == [] ==> d == Draw(None, shown)
    ensures pool != [] ==> d.current.Some? && d.current.value in pool &&
                           d.shown == {d.current.value}
  {
    if pool == [] then Draw(None, shown)
    else
      var q := pool[draw % |pool|];
      Draw(Some(q), {q})
  }

  /**
   * A later advance (lines 559-567): a question not yet shown is drawn and added to the
   * shown set; when every question of the pool has been shown, the end-of-layer message
   * appears and the shown set is emptied for the next pass.
   */
  function NextDraw(pool: seq<Question>, shown: set<Question>, draw: nat): (d: Draw)
    ensures Elems(pool) <= shown ==> d == Draw(None, {})
    ensures !(Elems(pool) <= shown) ==>
              d.current.Some? && d.current.value in pool && d.current.value !in shown &&
              d.shown == shown + {d.current.value}
  {
    var remaining := Remaining(pool, shown);
    if remaining != [] then
      var q := remaining[draw % |remaining|];
      Draw(Some(q), shown + {q})
    else
      assert forall q :: q in pool ==> q in shown;
      Draw(None, {})
  }

  /** Which of the two branches of the `onClick` runs, as `isStarted` decides. */
  function Advance(pool: seq<Question>, shown: set<Question>, isStarted: bool, draw: nat): (d: Draw)
    ensures shown <= Elems(pool) ==> d.shown <= Elems(pool)
    ensures d.current.Some? ==> d.current.value in pool && (isStarted ==> d.current.value !in shown)
    ensures isStarted || pool != [] ==> (d.current.None? <==> d.shown == {})
  {
    if isStarted then NextDraw(pool, shown, draw) else FirstDraw(pool, shown, draw)
  }

  /** The text shown for a draw: the question's own text, or the end-of-layer message. */
  function DisplayText(current: Option<Question>, endOfLayerMessage: string): (text: string)
    ensures current.Some? ==> text == current.value.text
    ensures current.None? ==> text == endOfLayerMessage
  {
    match current
    case Some(q) => q.text
    case None => endOfLayerMessage
  }

  lemma {:induction false} RemainingOfNothingShown(pool: seq<Question>)
    ensures Remaining(pool, {}) == pool
  {
    if pool != [] {
      RemainingOfNothingShown(pool[1..]);
      assert pool == [pool[0]] + pool[1..];
    }
  }

  /**
   * The first advance draws exactly as a later advance would with nothing shown yet: the
   * two branches of the `onClick` differ only in how they are written.
   */
  lemma FirstDrawIsNextDrawFromEmpty(pool: seq<Question>, draw: nat)
    ensures FirstDraw(pool, {}, draw) == NextDraw(pool, {}, draw)
  {
    RemainingOfNothingShown(pool);
  }

  /** Every question of the pool not yet shown is the one some later draw selects. */
  lemma EveryUnshownQuestionCanBeDrawn(pool: seq<Question>, shown: set<Question>, q: Question)
    requires q in pool && q !in shown
    ensures exists draw: nat :: NextDraw(pool, shown, draw).current == Some(q)
  {
    var remaining := Remaining(pool, shown);
    var i :| 0 <= i < |remaining| && remaining[i] == q;
    assert i % |remaining| == i;
    assert NextDraw(pool, shown, i).current == Some(q);
  }

  /** Every question of the pool is the one some first draw selects. */
  lemma EveryQuestionCanBeDrawnFirst(pool: seq<Question>, shown: set<Question>, q: Question)
    requires q in pool
    ensures exists draw: nat :: FirstDraw(pool, shown, draw).current == Some(q)
  {
    var j :| 0 <= j < |pool| && pool[j] == q;
    assert j % |pool| == j;
    assert FirstDraw(pool, shown, j).current == Some(q);
  }

  /** A run of advances: what each one drew, in order, and the shown set after the last. */
  datatype Run = Run(outs: seq<Option<Question>>, shown: set<Question>)

  /** What a run of later advances shows, one draw per advance, and the final shown set. */
  function Replay(pool: seq<Question>, shown: set<Question>, draws: seq<nat>): (r: Run)
    ensures |r.outs| == |draws|
    decreases |draws|
  {
    if draws == [] then Run([], shown)
    else
      var d := NextDraw(pool, shown, draws[0]);
      var rest := Replay(pool, d.shown, draws[1..]);
      Run([d.current] + rest.outs, rest.shown)
  }

  /** One advance with something left to show shows one unshown question, and no other. */
  lemma NextDrawShrinksUnshown(pool: seq<Question>, shown: set<Question>, draw: nat)
    requires shown <= Elems(pool) && Elems(pool) - shown != {}
    ensures var d := NextDraw(pool, shown, draw);
            d.current.Some? && d.current.value in Elems(pool) - shown &&
            d.shown <= Elems(pool) &&
            Elems(pool) - d.shown == (Elems(pool) - shown) - {d.current.value} &&
            |Elems(pool) - d.shown| == |Elems(pool) - shown| - 1
  {
    var d := NextDraw(pool, shown, draw);
    assert !(Elems(pool) <= shown);
    assert Elems(pool) - d.shown == (Elems(pool) - shown) - {d.current.value};
  }

  /** With every question shown, an advance shows the end-of-layer message and starts over. */
  lemma NothingUnshownEndsPass(pool: seq<Question>, shown: set<Question>, draw: nat)
    requires Elems(pool) - shown == {}
    ensures NextDraw(pool, shown, draw) == Draw(None, {})
  {
    forall q | q in Elems(pool) ensures q in shown {
      assert q !in Elems(pool) - shown;
    }
  }

  /** What the advances of a pass show: each question at most once, none shown before. */
  ghost predicate ShowsUnshownOnce(outs: seq<Option<Question>>, unshown: set<Question>)
  {
    (forall i :: 0 <= i < |outs| ==> outs[i].Some? && outs[i].value in unshown) &&
    (forall i, j :: 0 <= i < j < |outs| ==> outs[i] != outs[j]) &&
    (forall q :: q in unshown ==> Some(q) in outs)
  }

  /** The inductive step of PassShowsEachUnshownOnce: one more question in front of a pass. */
  lemma PassStep(q: Question, rest: seq<Option<Question>>, unshown: set<Question>, n: nat)
    requires q in unshown && 0 < n == |rest|
    requires ShowsUnshownOnce(rest[..n - 1], unshown - {q}) && rest[n - 1] == None
    ensures ShowsUnshownOnce(([Some(q)] + rest)[..n], unshown) && ([Some(q)] + rest)[n] == None
  {
    assert ([Some(q)] + rest)[..n] == [Some(q)] + rest[..n - 1];
    ShowsUnshownOnceCons(q, rest[..n - 1], unshown);
  }

  lemma ShowsUnshownOnceCons(q: Question, rest: seq<Option<Question>>, unshown: set<Question>)
    requires q in unshown
    requires ShowsUnshownOnce(rest, unshown - {q})
    ensures ShowsUnshownOnce([Some(q)] + rest, unshown)
  {
    var outs := [Some(q)] + rest;
    forall i | 0 < i < |outs| ensures outs[i] == rest[i - 1] {
    }
    forall i, j | 0 <= i < j < |outs| ensures outs[i] != outs[j] {
      if i == 0 {
        assert outs[j].value in unshown - {q};
      }
    }
    forall r | r in unshown ensures Some(r) in outs {
      if r != q {
        assert Some(r) in rest;
      }
    }
  }

  /**
   * A pass: from any shown set within the pool, the next |unshown| advances show every
   * unshown question exactly once, and the advance after them shows the end-of-layer
   * message and empties the shown set.
   */
  lemma {:induction false} PassShowsEachUnshownOnce(pool: seq<Question>, shown: set<Question>, draws: seq<nat>)
    requires shown <= Elems(pool)
    requires |draws| == |Elems(pool) - shown| + 1
    ensures ShowsUnshownOnce(Replay(pool, shown, draws).outs[..|draws| - 1], Elems(pool) - shown)
    ensures Replay(pool, shown, draws).outs[|draws| - 1] == None
    ensures Replay(pool, shown, draws).shown == {}
    decreases |draws|
  {
    var d := NextDraw(pool, shown, draws[0]);
    assert Replay(pool, shown, draws) ==
           Run([d.current] + Replay(pool, d.shown, draws[1..]).outs, Replay(pool, d.shown, draws[1..]).shown);
    if Elems(pool) - shown == {} {
      NothingUnshownEndsPass(pool, shown, draws[0]);
      assert draws[1..] == [];
    } else {
      NextDrawShrinksUnshown(pool, shown, draws[0]);
      PassShowsEachUnshownOnce(pool, d.shown, draws[1..]);
      var rest := Replay(pool, d.shown, draws[1..]).outs;
      PassStep(d.current.value, rest, Elems(pool) - shown, |draws| - 1);
      assert Replay(pool, shown, draws).outs == [d.current] + rest;
    }
  }

  /**
   * A full pass from an empty shown set (a fresh screen, or just after the end-of-layer
   * message): |set(pool)| distinct questions covering the whole pool, then the message.
   */
  lemma FullPass(pool: seq<Question>, draws: seq<nat>)
    requires |draws| == |Elems(pool)| + 1
    ensures var outs := Replay(pool, {}, draws).outs;
            var n := |Elems(pool)|;
            (forall i, j :: 0 <= i < j < n ==> outs[i] != outs[j]) &&
            (forall q :: q in pool <==> Some(q) in outs[..n]) &&
            outs[n] == None
    ensures Replay(pool, {}, draws).shown == {}
  {
    assert Elems(pool) - {} == Elems(pool);
    PassShowsEachUnshownOnce(pool, {}, draws);
    PassCoversPool(Replay(pool, {}, draws).outs, |Elems(pool)|, pool);
  }

  lemma PassCoversPool(outs: seq<Option<Question>>, n: nat, pool: seq<Question>)
    requires n <= |outs| && ShowsUnshownOnce(outs[..n], Elems(pool))
    ensures forall i, j :: 0 <= i < j < n ==> outs[i] != outs[j]
    ensures forall q :: q in pool <==> Some(q) in outs[..n]
  {
    var pass := outs[..n];
    forall i, j | 0 <= i < j < n ensures outs[i] != outs[j] {
      assert pass[i] != pass[j];
    }
    forall q ensures q in pool <==> Some(q) in pass {
      if Some(q) in pass {
        var i :| 0 <= i < |pass| && pass[i] == Some(q);
        assert pass[i].value in Elems(pool);
      }
      if q in pool {
        assert q in Elems(pool);
      }
    }
  }

  /** `for (i in 30 downTo 0)`: the countdown's first value. */
  const TimerCeiling: nat := 30

  /** The values the countdown gives `timerValue`, one per one-second tick. */
  function CountdownValues(from: nat): (vs: seq<int>)
    ensures |vs| == from + 1
    ensures forall k :: 0 <= k < |vs| ==> vs[k] == from - k
  {
    if from == 0 then [0] else [from] + CountdownValues(from - 1)
  }

  /**
   * The pool a screen for `topicId`/`layerId` loads: none when the catalog has no such
   * topic or layer, or when the layer's resource cannot be read.
   */
  function ScreenPool(topicId: string, layerId: int32, language: string, read: ResId -> ReadResult)
    : (pool: seq<Question>)
    ensures !(1 <= layerId as int <= LayerCount(topicId)) ==> pool == []
    ensures 1 <= layerId as int <= LayerCount(topicId) ==>
              var layer := FindLayer(Topics(), topicId, layerId).value;
              layer.id == layerId &&
              pool == LoadQuestions(language, layer, read) &&
              (read(ResourceToLoad(language, layer)).ReadFailed? ==> pool == [])
  {
    FindLayerInCatalog(topicId, layerId);
    match FindLayer(Topics(), topicId, layerId)
    case None => []
    case Some(layer) => LoadQuestions(language, layer, read)
  }

  /**
   * The state `QuestionScreen` remembers (lines 437-445). The pool is assigned once, by
   * the load effect when the screen is entered, and is fixed from then on.
   */
  class QuestionScreen {
    const endOfLayerMessage: string
    const questions: seq<Question>
    var questionsShown: set<Question>
    var currentQuestion: string
    var isLoading: bool
    var isStarted: bool
    var timerValue: int
    var isTimerActive: bool

    /** Between events: the shown set lies within the pool, and is empty before the start. */
    ghost predicate Valid()
      reads this
    {
      questionsShown <= Elems(questions) && !isLoading &&
      (!isStarted ==> questionsShown == {})
    }

    /**
     * Entering the screen: the remembered initial state, then the load effect (lines
     * 448-452), which loads nothing when the topic or the layer is unknown.
     */
    constructor (topicId: string, layerId: int32, language: string, read: ResId -> ReadResult,
                 endOfLayerMessage: string)
      ensures Valid()
      ensures questions == ScreenPool(topicId, layerId, language, read)
      ensures this.endOfLayerMessage == endOfLayerMessage
      ensures questionsShown == {} && currentQuestion == "" && !isStarted
      ensures timerValue == 0 && !isTimerActive
    {
      this.endOfLayerMessage := endOfLayerMessage;
      var layer := FindLayer(Topics(), topicId, layerId);
      questions := if layer.Some? then LoadQuestions(language, layer.value, read) else [];
      questionsShown := {};
      currentQuestion := "";
      isLoading := false;
      isStarted := false;
      timerValue := 0;
      isTimerActive := false;
    }

    /** `enabled = questions.isNotEmpty() && !isLoading && !isTimerActive` (line 574) */
    predicate AdvanceEnabled()
      reads this
      ensures AdvanceEnabled() ==> questions != [] && !isTimerActive
    {
      questions != [] && !isLoading && !isTimerActive
    }

    /**
     * The Start/Next button's `onClick` (lines 540-573): start the countdown, draw the next
     * question, and clear `isLoading` in the `finally`.
     */
    method OnClick(draw: nat)
      requires Valid()
      modifies this
      ensures Valid()
      ensures isStarted && isTimerActive && !isLoading && !AdvanceEnabled()
      ensures timerValue == old(timerValue)
      ensures var d := Advance(questions, old(questionsShown), old(isStarted), draw);
              questionsShown == d.shown &&
              currentQuestion == DisplayText(d.current, endOfLayerMessage)
    {
      isLoading := true;
      if !isStarted {
        isStarted := true;
        isTimerActive := true;
        if questions != [] {
          var initialQuestion := questions[draw % |questions|];
          currentQuestion := initialQuestion.text;
          questionsShown := {initialQuestion};
        } else {
          currentQuestion := endOfLayerMessage;
        }
      } else {
        isTimerActive := true;
        var remaining := Remaining(questions, questionsShown);
        if remaining != [] {
          var next := remaining[draw % |remaining|];
          currentQuestion := next.text;
          questionsShown := questionsShown + {next};
        } else {
          currentQuestion := endOfLayerMessage;
          questionsShown := {};
        }
      }
      isLoading := false;
    }

    /** A tap on the button: Compose runs `onClick` only while the button is enabled. */
    method Press(draw: nat)
      requires Valid()
      modifies this
      ensures Valid()
      ensures !old(AdvanceEnabled()) ==> unchanged(this)
      ensures old(AdvanceEnabled()) ==>
                isStarted && isTimerActive && !AdvanceEnabled() && timerValue == old(timerValue) &&
                var d := Advance(questions, old(questionsShown), old(isStarted), draw);
                questionsShown == d.shown &&
                currentQuestion == DisplayText(d.current, endOfLayerMessage)
    {
      if AdvanceEnabled() {
        OnClick(draw);
      }
    }

    /**
     * The countdown effect (lines 455-463), run to its end: one loop iteration per tick of
     * `delay(1000)`. `ticks` lists the values `timerValue` takes, in order.
     */
    method Countdown() returns (ticks: seq<int>)
      requires Valid()
      modifies this`timerValue, this`isTimerActive
      ensures Valid()
      ensures old(isTimerActive) ==> ticks == CountdownValues(TimerCeiling) && timerValue == 0
      ensures !old(isTimerActive) ==> ticks == [] && timerValue == old(timerValue)
      ensures !isTimerActive
      ensures AdvanceEnabled() <==> questions != []
    {
      ticks := [];
      if isTimerActive {
        var i: int := TimerCeiling;
        while i >= 0
          invariant -1 <= i <= TimerCeiling
          invariant ticks == CountdownValues(TimerCeiling)[..TimerCeiling - i]
          invariant i < TimerCeiling ==> timerValue == i + 1
        {
          timerValue := i;
          ticks := ticks + [i];
          i := i - 1;
        }
        isTimerActive := false;
      }
    }
  }

  /** One tap on the button followed by the whole countdown it starts. */
  method TapAndWait(screen: QuestionScreen, draw: nat) returns (text: string, ticks: seq<int>)
    requires screen.Valid() && !screen.isTimerActive && screen.questions != []
    modifies screen
    ensures screen.Valid() && !screen.isTimerActive && screen.isStarted
    ensures ticks == CountdownValues(TimerCeiling) && screen.timerValue == 0
    ensures var d := Advance(screen.questions, old(screen.questionsShown), old(screen.isStarted), draw);
            screen.questionsShown == d.shown && text == screen.currentQuestion &&
            text == DisplayText(d.current, screen.endOfLayerMessage)
  {
    screen.Press(draw);
    text := screen.currentQuestion;
    ticks := screen.Countdown();
  }

  /**
   * Opening the screen for a topic or layer id the catalog lacks, or for a layer whose
   * resource cannot be read, and tapping: the pool is empty, so the button stays disabled
   * and the tap changes nothing.
   */
  method OpenAndTapEmpty(topicId: string, layerId: int32, language: string, read: ResId -> ReadResult,
                         endOfLayerMessage: string, draw: nat)
    returns (screen: QuestionScreen)
    requires ScreenPool(topicId, layerId, language, read) == []
    ensures fresh(screen) && screen.Valid() && screen.endOfLayerMessage == endOfLayerMessage
    ensures screen.questions == [] && !screen.AdvanceEnabled()
    ensures !screen.isStarted && screen.questionsShown == {} && screen.currentQuestion == ""
    ensures !screen.isLoading && !screen.isTimerActive && screen.timerValue == 0
  {
    screen := new QuestionScreen(topicId, layerId, language, read, endOfLayerMessage);
    screen.Press(draw);
  }
}
