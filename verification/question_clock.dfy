/** The question window: a three-minute countdown. On one device and on the host the clock
    ticks; the host copies every value into the round so guests can show it, and guests only
    adopt what the host publishes. The controller ends the window. */
module QuestionClock {
  import opened Wrappers
  import opened Seqs
  import opened Arith
  import opened Text
  import opened Model
  import opened Store

  /** Length of the question window in seconds. */
  const QuestionTime: nat := 180

  /** The screen's countdown and whether it is running. */
  datatype Clock = Clock(remaining: int, active: bool)

  /** The clock a participant starts with: the round's published value if any, else the full
      window, not yet running. */
  function InitialClock(s: GameState): (c: Clock)
    ensures !c.active
    ensures CurrentRound(s).Some? && CurrentRound(s).value.timerValue.Some? ==> c.remaining == CurrentRound(s).value.timerValue.value
    ensures CurrentRound(s).None? || CurrentRound(s).value.timerValue.None? ==> c.remaining == QuestionTime
  {
    match CurrentRound(s)
    case None => Clock(QuestionTime, false)
    case Some(r) => Clock(r.timerValue.GetOr(QuestionTime), false)
  }

  /** One second: the countdown drops by one and stops at zero. */
  function Tick(t: int): (r: int)
    ensures r >= 0
    ensures t > 0 ==> r == t - 1
    ensures t <= 0 ==> r == 0
  {
    if t <= 0 then 0 else t - 1
  }

  /** `n` seconds of ticking. */
  function TickN(t: int, n: nat): int {
    if n == 0 then t else Tick(TickN(t, n - 1))
  }

  /** After `n` seconds a countdown started at `t >= 0` shows `max(t - n, 0)`: it never goes
      below zero and never skips a second. */
  lemma {:induction false} TickNCounts(t: int, n: nat)
    requires t >= 0
    ensures TickN(t, n) == Max(t - n, 0)
  {
    if n > 0 {
      TickNCounts(t, n - 1);
    }
  }

  /** The host's copy of its running clock into the current round. */
  function Mirror(ses: Session, s: GameState, c: Clock): (out: Step)
    ensures ses.mode == Online && ses.isHost && CurrentRound(s).Some? && c.active ==>
      out == UpdateRound(ses, s, s.currentRound, EmptyPatch.(timerValue := Some(c.remaining)))
    ensures !(ses.mode == Online && ses.isHost && CurrentRound(s).Some? && c.active) ==> out == Step(s, [])
  {
    if ses.mode == Online && ses.isHost && c.active then
      match CurrentRound(s)
      case None => Step(s, [])
      case Some(r) => UpdateRound(ses, s, r.roundNumber, EmptyPatch.(timerValue := Some(c.remaining)))
    else Step(s, [])
  }

  /** One second on a running clock of a controller, followed by the host's copy into the round.
      Guests and stopped clocks do not tick. */
  function TickStep(ses: Session, s: GameState, c: Clock): (out: (Clock, Step))
    ensures !c.active || !CanControl(ses) ==> out == (c, Step(s, []))
    ensures c.active && CanControl(ses) ==> out.0 == c.(remaining := Tick(c.remaining)) && out.1 == Mirror(ses, s, out.0)
  {
    if !c.active || !CanControl(ses) then (c, Step(s, []))
    else
      var c' := c.(remaining := Tick(c.remaining));
      (c', Mirror(ses, s, c'))
  }

  /** After a host's tick, a guest that adopts the published value shows the host's clock. */
  lemma GuestShowsHostClock(host: Session, guest: Session, s: GameState, c: Clock, g: Clock)
    requires host.mode == Online && host.isHost && guest.mode == Online && !guest.isHost
    requires CurrentRound(s).Some? && c.active
    ensures var after := TickStep(host, s, c);
      GuestAdopt(guest, after.1.state, g).remaining == after.0.remaining
  {
    var c' := c.(remaining := Tick(c.remaining));
    FindAfterPatch(s.rounds, s.currentRound, EmptyPatch.(timerValue := Some(c'.remaining)));
  }

  /** A guest takes the round's published value, and starts showing a running clock once the
      value is below the full window; it never ticks on its own. */
  function GuestAdopt(ses: Session, s: GameState, c: Clock): (out: Clock)
    ensures !(ses.mode == Online && !ses.isHost) || CurrentRound(s).None? || CurrentRound(s).value.timerValue.None? ==> out == c
    ensures ses.mode == Online && !ses.isHost && CurrentRound(s).Some? && CurrentRound(s).value.timerValue.Some? ==>
      var v := CurrentRound(s).value.timerValue.value;
      out.remaining == v && out.active == (c.active || v < QuestionTime)
  {
    if ses.mode == Online && !ses.isHost then
      match CurrentRound(s)
      case None => c
      case Some(r) =>
        match r.timerValue
        case None => c
        case Some(v) => Clock(v, c.active || v < QuestionTime)
    else c
  }

  /** The start button: the clock runs, and the online host publishes a full window. */
  function StartTimer(ses: Session, s: GameState, c: Clock): (out: (Clock, Step))
    ensures out.0 == c.(active := true)
    ensures ses.mode == Online && ses.isHost && CurrentRound(s).Some? ==>
      out.1 == UpdateRound(ses, s, s.currentRound, EmptyPatch.(timerValue := Some(QuestionTime as int)))
    ensures !(ses.mode == Online && ses.isHost && CurrentRound(s).Some?) ==> out.1 == Step(s, [])
  {
    var c' := c.(active := true);
    if ses.mode == Online && ses.isHost then
      match CurrentRound(s)
      case None => (c', Step(s, []))
      case Some(r) => (c', UpdateRound(ses, s, r.roundNumber, EmptyPatch.(timerValue := Some(QuestionTime as int))))
    else (c', Step(s, []))
  }

  /** Ending the questions: the controller moves the game to the investment phase; a guest's
      button does nothing. */
  function FinishQuestions(ses: Session, s: GameState): (out: Step)
    ensures !CanControl(ses) ==> out == Step(s, [])
    ensures CanControl(ses) ==> out.state == s.(phase := Investing)
    ensures CanControl(ses) ==> out == SetPhase(ses, s, Investing)
  {
    if ses.mode == Online then
      if ses.isHost then SetPhase(ses, s, Investing) else Step(s, [])
    else SetPhase(ses, s, Investing)
  }

  /** `m:ss`: whole minutes, a colon, and the seconds as two digits. */
  function FormatTime(seconds: nat): (r: string)
    ensures var m := Show(seconds / 60);
      && |r| == |m| + 3 && r[..|m|] == m && r[|m|] == ':'
      && IsDigit(r[|r| - 2]) && IsDigit(r[|r| - 1])
      && DigitValue(r[|r| - 2]) * 10 + DigitValue(r[|r| - 1]) == seconds % 60
  {
    var m := Show(seconds / 60);
    var sec := seconds % 60;
    var padded := PadStart(Show(sec), 2, '0');
    SecondsField(sec);
    var r := m + ":" + padded;
    assert r[|r| - 2] == padded[0] && r[|r| - 1] == padded[1];
    r
  }

  /** The two-character seconds field of a value below 60. */
  lemma SecondsField(sec: nat)
    requires sec < 60
    ensures var p := PadStart(Show(sec), 2, '0');
      |p| == 2 && IsDigit(p[0]) && IsDigit(p[1]) && DigitValue(p[0]) * 10 + DigitValue(p[1]) == sec
  {
    var p := PadStart(Show(sec), 2, '0');
    if sec < 10 {
      assert Show(sec) == [DigitChar(sec)];
      assert p == ['0', DigitChar(sec)];
    } else {
      assert Show(sec) == Show(sec / 10) + [DigitChar(sec % 10)];
      assert Show(sec / 10) == [DigitChar(sec / 10)];
      assert p == [DigitChar(sec / 10), DigitChar(sec % 10)];
    }
  }

  /** Reads a `m:ss` display back into seconds; `None` for anything else. */
  function ParseClock(text: string): Option<nat> {
    var k := FirstIndex(text, (c: char) => c == ':');
    if k < 0 || k + 3 != |text| then None
    else
      var m := text[..k];
      var sec := text[k + 1..];
      if |m| == 0 || !AllDigits(m) || !AllDigits(sec) then None
      else Some(ParseDigits(m) * 60 + ParseDigits(sec))
  }

  lemma ParseTwoDigits(d: string)
    requires |d| == 2 && AllDigits(d)
    ensures ParseDigits(d) == DigitValue(d[0]) * 10 + DigitValue(d[1])
  {
    assert d[..|d| - 1] == [d[0]];
    assert [d[0]][..0] == [];
    assert ParseDigits([d[0]]) == DigitValue(d[0]);
  }

  /** The colon of a display is the first one, right after the minutes. */
  lemma ColonAfterMinutes(r: string, m: string)
    requires |r| > |m| && r[..|m|] == m && AllDigits(m) && r[|m|] == ':'
    ensures FirstIndex(r, (c: char) => c == ':') == |m|
  {
    assert forall j :: 0 <= j < |m| ==> r[j] == m[j];
  }

  /** Reading the display back gives the seconds shown: minutes times 60 plus the seconds
      field, which is always below 60. */
  lemma FormatTimeRoundTrip(seconds: nat)
    ensures ParseClock(FormatTime(seconds)) == Some(seconds)
  {
    var m := Show(seconds / 60);
    var r := FormatTime(seconds);
    var sec := r[|m| + 1..];
    assert sec[0] == r[|r| - 2] && sec[1] == r[|r| - 1];
    ParseTwoDigits(sec);
    ParseShow(seconds / 60);
    ParseClockParts(r, m);
    assert ParseDigits(sec) == seconds % 60;
    assert ParseDigits(m) == seconds / 60;
    assert seconds == (seconds / 60) * 60 + seconds % 60;
  }

  /** A display made of digits, a colon and two digits reads as minutes times 60 plus seconds. */
  lemma ParseClockParts(r: string, m: string)
    requires |r| == |m| + 3 && |m| > 0 && r[..|m|] == m && AllDigits(m) && r[|m|] == ':'
    requires IsDigit(r[|r| - 2]) && IsDigit(r[|r| - 1])
    ensures ParseClock(r) == Some(ParseDigits(m) * 60 + ParseDigits(r[|m| + 1..]))
  {
    ColonAfterMinutes(r, m);
    var sec := r[|m| + 1..];
    assert sec[0] == r[|r| - 2] && sec[1] == r[|r| - 1];
    assert AllDigits(sec);
  }
}
