/** Topic selection: the company spins a roulette over the built-in topics or types its own, and
    confirms the topic, which moves the game to curve drawing. Online, the spin is shared through
    the round's roulette record so that every screen animates to the same topic. Random picks are
    parameters. */
module TopicPicker {
  import opened Wrappers
  import opened Text
  import opened Model
  import opened Store

  /** The built-in topics the roulette draws from. */
  const DefaultTopics: seq<string> := [
    "人生の幸福度", "人生の充実度", "夢や希望の大きさ", "生きるエネルギー量",
    "自由時間量", "自己肯定感", "ストレスレベル", "「自分、輝いてる」感",
    "モテ度", "恋愛体質度", "理想の高さ", "スケベ度", "ロマンチスト度",
    "リッチ度", "成績レベル", "物欲レベル", "友達の量", "コミュ力",
    "空気読み力", "SNS依存度", "嘘の頻度", "目立ちたがり度", "メンタル安定度",
    "黒歴史レベル", "中二病レベル", "ストイックさ", "優しさレベル",
    "怒りっぽさレベル", "好奇心の強さ", "プライドの高さ", "ネガティブ度",
    "几帳面さ", "理性の強さ", "知識欲レベル", "世渡り力", "陽キャ度",
    "情の深さ", "危機管理能力", "変人度", "人生イージーモード感"
  ]

  /** There are forty built-in topics and none is empty, so a draw always yields a topic. */
  lemma DefaultTopicsShape()
    ensures |DefaultTopics| == 40
    ensures forall i :: 0 <= i < |DefaultTopics| ==> DefaultTopics[i] != ""
  {
  }

  /** The screen's own state: the typed topic, the topic the roulette landed on, the text the
      roulette shows, and whether it is animating. */
  datatype TopicUi = TopicUi(customTopic: string, selectedTopic: string, displayTopic: string, spinning: bool)

  const FreshUi: TopicUi := TopicUi("", "", "", false)

  /** The roulette record showing a settled topic. */
  function Settled(t: string): Roulette {
    Roulette(false, t, Some(t))
  }

  function RoulettePatch(r: Roulette): RoundPatch {
    EmptyPatch.(roulette := Some(r))
  }

  /** True when the current round's topic is confirmed, which locks the roulette. */
  predicate Locked(s: GameState) {
    CurrentRound(s).Some? && CurrentRound(s).value.topicConfirmed
  }

  /** A spin by the company, with `pick` the roulette's random draw. A typed topic wins at once
      and is shown settled on every screen; otherwise the drawn topic is published as a spin in
      progress online, or animated locally. Nothing happens for anyone else, or once the topic
      is confirmed. */
  function Spin(ses: Session, s: GameState, isCompany: bool, ui: TopicUi, pick: nat): (out: (TopicUi, Step))
    requires pick < |DefaultTopics|
    ensures !isCompany || Locked(s) ==> out == (ui, Step(s, []))
    ensures isCompany && !Locked(s) && Trim(ui.customTopic) != "" ==>
      var t := Trim(ui.customTopic);
      && out.0 == ui.(selectedTopic := t, displayTopic := t)
      && (ses.mode == Online ==> out.1 == UpdateRound(ses, s, s.currentRound, RoulettePatch(Settled(t))))
      && (ses.mode == Local ==> out.1 == Step(s, []))
    ensures isCompany && !Locked(s) && Trim(ui.customTopic) == "" && ses.mode == Online ==>
      out == (ui, UpdateRound(ses, s, s.currentRound, RoulettePatch(Roulette(true, "", Some(DefaultTopics[pick])))))
    ensures isCompany && !Locked(s) && Trim(ui.customTopic) == "" && ses.mode == Local ==>
      out == (ui.(spinning := true), Step(s, []))
  {
    if !isCompany || Locked(s) then (ui, Step(s, []))
    else
      var custom := Trim(ui.customTopic);
      if custom != "" then
        var ui' := ui.(selectedTopic := custom, displayTopic := custom);
        if ses.mode == Online then (ui', UpdateRound(ses, s, s.currentRound, RoulettePatch(Settled(custom))))
        else (ui', Step(s, []))
      else
        var t := DefaultTopics[pick];
        if ses.mode == Online then (ui, UpdateRound(ses, s, s.currentRound, RoulettePatch(Roulette(true, "", Some(t)))))
        else (ui.(spinning := true), Step(s, []))
  }

  /** The end of the roulette animation: it lands on `target`, or on the random draw `pick` when
      there is no target, and the company's screen publishes the settled roulette online. */
  function Settle(ses: Session, s: GameState, isCompany: bool, ui: TopicUi, target: string, pick: nat): (out: (TopicUi, Step))
    requires pick < |DefaultTopics|
    ensures var t := if target != "" then target else DefaultTopics[pick];
      && t != ""
      && out.0 == ui.(selectedTopic := t, displayTopic := t, spinning := false)
      && (isCompany && ses.mode == Online ==> out.1 == UpdateRound(ses, s, s.currentRound, RoulettePatch(Settled(t))))
      && (!(isCompany && ses.mode == Online) ==> out.1 == Step(s, []))
  {
    var t := if target != "" then target else DefaultTopics[pick];
    DefaultTopicsShape();
    var ui' := ui.(selectedTopic := t, displayTopic := t, spinning := false);
    if isCompany && ses.mode == Online then (ui', UpdateRound(ses, s, s.currentRound, RoulettePatch(Settled(t))))
    else (ui', Step(s, []))
  }

  /** How every screen follows the shared roulette. Online, a spin in progress starts the local
      animation, and a settled roulette shows its topic; on one device a confirmed topic is
      shown once. A round other than the current one is ignored. */
  function Follow(ses: Session, s: GameState, ui: TopicUi): (out: TopicUi)
    ensures CurrentRound(s).None? ==> out == ui
    ensures ui.spinning ==> out == ui
    ensures CurrentRound(s).Some? && ses.mode == Online && CurrentRound(s).value.roulette.isSpinning ==> out.spinning
    ensures CurrentRound(s).Some? && ses.mode == Online && !CurrentRound(s).value.roulette.isSpinning && !ui.spinning ==>
      var rt := CurrentRound(s).value.roulette;
      && !out.spinning
      && out.displayTopic == (if rt.displayTopic != "" then rt.displayTopic else ui.displayTopic)
      && out.selectedTopic == (if rt.finalTopic.Some? && rt.finalTopic.value != "" then rt.finalTopic.value else ui.selectedTopic)
    ensures CurrentRound(s).Some? && ses.mode == Local ==>
      var t := CurrentRound(s).value.topic;
      if !ui.spinning && ui.displayTopic == "" && t != "" then out == ui.(displayTopic := t, selectedTopic := t)
      else out == ui
    ensures out.customTopic == ui.customTopic
  {
    match CurrentRound(s)
    case None => ui
    case Some(r) =>
      if ses.mode == Online then
        if r.roulette.isSpinning && !ui.spinning then ui.(spinning := true)
        else if !r.roulette.isSpinning && !ui.spinning then
          var ui1 := if r.roulette.displayTopic != "" then ui.(displayTopic := r.roulette.displayTopic) else ui;
          match r.roulette.finalTopic
          case Some(f) => if f != "" then ui1.(selectedTopic := f) else ui1
          case None => ui1
        else ui
      else if !ui.spinning && ui.displayTopic == "" && r.topic != "" then
        ui.(displayTopic := r.topic, selectedTopic := r.topic)
      else ui
  }

  /** Online, once the company's roulette has settled, every screen that is not animating shows
      the settled topic, the same one the company's own screen shows. */
  lemma SettledTopicShownEverywhere(ses: Session, viewer: Session, s: GameState, ui: TopicUi,
                                    target: string, pick: nat, seen: TopicUi)
    requires ses.mode == Online && viewer.mode == Online && pick < |DefaultTopics|
    requires CurrentRound(s).Some? && !seen.spinning
    ensures var out := Settle(ses, s, true, ui, target, pick);
      && Follow(viewer, out.1.state, seen).selectedTopic == out.0.selectedTopic
      && Follow(viewer, out.1.state, seen).displayTopic == out.0.displayTopic
      && !Follow(viewer, out.1.state, seen).spinning
  {
    var t := if target != "" then target else DefaultTopics[pick];
    FindAfterPatch(s.rounds, s.currentRound, RoulettePatch(Settled(t)));
  }

  /** The topic a confirmation would use: the typed one when there is one, else the roulette's. */
  function ChosenTopic(ui: TopicUi): (t: string)
    ensures Trim(ui.customTopic) != "" ==> t == Trim(ui.customTopic)
    ensures Trim(ui.customTopic) == "" ==> t == ui.selectedTopic
  {
    if Trim(ui.customTopic) != "" then Trim(ui.customTopic) else ui.selectedTopic
  }

  function ConfirmPatch(ses: Session, t: string): RoundPatch {
    if ses.mode == Online then EmptyPatch.(topic := Some(t), topicConfirmed := Some(true), roulette := Some(Settled(t)))
    else EmptyPatch.(topic := Some(t), topicConfirmed := Some(true))
  }

  /** Confirmation by the company. Without any topic nothing changes (the screen only warns).
      Otherwise the current round takes the topic and is locked, and the game moves to curve
      drawing: online in one combined update that also settles the roulette, on one device as a
      round update and then a phase change. */
  function Confirm(ses: Session, s: GameState, isCompany: bool, ui: TopicUi): (out: Step)
    ensures !isCompany || ChosenTopic(ui) == "" ==> out == Step(s, [])
    ensures isCompany && ChosenTopic(ui) != "" ==>
      out.state == s.(rounds := PatchRounds(s.rounds, s.currentRound, ConfirmPatch(ses, ChosenTopic(ui))), phase := GraphCreation)
    ensures isCompany && ChosenTopic(ui) != "" && ses.mode == Online ==>
      out == UpdateRoundAndPhase(ses, s, s.currentRound, ConfirmPatch(ses, ChosenTopic(ui)), GraphCreation)
    ensures ses.mode == Local ==> out.events == []
  {
    if !isCompany then Step(s, [])
    else
      var t := ChosenTopic(ui);
      if t == "" then Step(s, [])
      else if ses.mode == Online then UpdateRoundAndPhase(ses, s, s.currentRound, ConfirmPatch(ses, t), GraphCreation)
      else
        var first := UpdateRound(ses, s, s.currentRound, ConfirmPatch(ses, t));
        Then(first, SetPhase(ses, first.state, GraphCreation))
  }

  /** After a confirmation the current round carries the chosen topic and is locked, the game is
      at curve drawing, and a further spin does nothing. */
  lemma ConfirmLocksTopic(ses: Session, s: GameState, ui: TopicUi, later: TopicUi, pick: nat)
    requires ChosenTopic(ui) != "" && CurrentRound(s).Some? && pick < |DefaultTopics|
    ensures var after := Confirm(ses, s, true, ui).state;
      && CurrentRound(after).Some?
      && CurrentRound(after).value.topic == ChosenTopic(ui)
      && CurrentRound(after).value.topicConfirmed
      && after.phase == GraphCreation
      && Spin(ses, after, true, later, pick) == (later, Step(after, []))
  {
    FindAfterPatch(s.rounds, s.currentRound, ConfirmPatch(ses, ChosenTopic(ui)));
  }

  /** Online, every screen that follows the roulette after a confirmation shows the confirmed
      topic as the roulette's result. */
  lemma ConfirmedTopicShownEverywhere(ses: Session, viewer: Session, s: GameState, ui: TopicUi, seen: TopicUi)
    requires ses.mode == Online && viewer.mode == Online
    requires ChosenTopic(ui) != "" && CurrentRound(s).Some? && !seen.spinning
    ensures var after := Confirm(ses, s, true, ui).state;
      Follow(viewer, after, seen).selectedTopic == ChosenTopic(ui)
      && Follow(viewer, after, seen).displayTopic == ChosenTopic(ui)
  {
    FindAfterPatch(s.rounds, s.currentRound, ConfirmPatch(ses, ChosenTopic(ui)));
  }
}
