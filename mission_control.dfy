/**
 * The server action behind the `useActionState` demo (FormDemo): it
 * validates the submitted mission name and returns the next action state.
 * The artificial delay is not modelled and `Date.now()` is a parameter.
 */
module MissionControl {
  import opened Wrappers
  import opened Text

  /** The state `submitMission` returns and `useActionState` keeps. */
  datatype ActionState = ActionState(success: bool, message: string, timestamp: int)

  const MinNameLength: nat := 3
  const RestrictedKeyword := "error"
  const TooShortMessage := "Mission name too short (min 3 chars)"
  const RestrictedMessage := "System Failure: Restricted Keyword Detected"

  /** The message of a successful launch, with the name quoted verbatim. */
  function LaunchedMessage(name: string): string {
    "Mission \"" + name + "\" launched successfully!"
  }

  /** The state `useActionState` starts from. */
  const InitialState := ActionState(false, "", 0)

  /** The telemetry log shows "Waiting for transmission..." while the timestamp is 0. */
  predicate AwaitingTransmission(state: ActionState) {
    state.timestamp == 0
  }

  /**
   * `submitMission(prevState, formData)` once its delay is over. `name` is
   * `formData.get('missionName')` (None when the field is absent) and `now`
   * is the value `Date.now()` returns. The length check counts UTF-16 code
   * units, as JavaScript's `length` does.
   */
  function SubmitMission(prevState: ActionState, name: Option<string>, now: int): (r: ActionState)
    ensures r.timestamp == now
    ensures name.None? ==> !r.success && r.message == TooShortMessage
    ensures name.Some? && Utf16Length(name.value) < MinNameLength ==> !r.success && r.message == TooShortMessage
    ensures (name.Some? && Utf16Length(name.value) >= MinNameLength && Contains(Lower(name.value), RestrictedKeyword))
              ==> !r.success && r.message == RestrictedMessage
    ensures r.success ==> r.message == LaunchedMessage(name.value)
  {
    if name.None? || Utf16Length(name.value) < MinNameLength then
      ActionState(false, TooShortMessage, now)
    else if Contains(Lower(name.value), RestrictedKeyword) then
      ActionState(false, RestrictedMessage, now)
    else
      ActionState(true, LaunchedMessage(name.value), now)
  }

  /** A launch succeeds exactly for names of at least three UTF-16 code units without "error" in any letter case. */
  lemma SuccessIff(prevState: ActionState, name: Option<string>, now: int)
    ensures SubmitMission(prevState, name, now).success
            <==> name.Some? && Utf16Length(name.value) >= MinNameLength && !Contains(Lower(name.value), RestrictedKeyword)
  {
  }

  /**
   * The two rejections never compete: a name containing "error" is at least
   * five characters long, so it always passes the length check and gets the
   * keyword message.
   */
  lemma KeywordNamesAreLongEnough(name: string)
    requires Contains(Lower(name), RestrictedKeyword)
    ensures Utf16Length(name) >= |name| >= |RestrictedKeyword| > MinNameLength
    ensures forall prev: ActionState, now: int ::
              SubmitMission(prev, Some(name), now).message == RestrictedMessage
  {
    ContainsLength(Lower(name), RestrictedKeyword);
  }

  /** A name of two characters beyond U+FFFF is four code units long, so it passes the length check. */
  lemma AstralNamesCountTwice(name: string)
    requires |name| == 2 && name[0] as int > 0xFFFF && name[1] as int > 0xFFFF
    ensures Utf16Length(name) == 4
    ensures forall prev: ActionState, now: int :: SubmitMission(prev, Some(name), now).message != TooShortMessage
  {
    assert name[1..][1..] == [];
    var lower := Lower(name);
    if Contains(lower, RestrictedKeyword) {
      ContainsLength(lower, RestrictedKeyword);
    }
  }

  /** The previous state plays no part: the same form data always gives the same verdict and message. */
  lemma IgnoresPreviousState(p1: ActionState, p2: ActionState, name: Option<string>, now: int)
    ensures SubmitMission(p1, name, now) == SubmitMission(p2, name, now)
  {
  }

  /** The launch message quotes the name verbatim: it can be read back out of the message. */
  lemma LaunchedMessageQuotesName(name: string)
    ensures var m := LaunchedMessage(name);
            |m| == |name| + 33 && m[9..|m| - 24] == name
  {
  }

  /** The three outcomes have distinct messages, so the message alone tells a launch from a rejection. */
  lemma MessageDeterminesOutcome(prevState: ActionState, name: Option<string>, now: int)
    ensures var r := SubmitMission(prevState, name, now);
            r.success <==> r.message != TooShortMessage && r.message != RestrictedMessage
  {
    var r := SubmitMission(prevState, name, now);
    if r.success {
      assert r.message[8] == '"' != TooShortMessage[8];
      assert r.message[0] == 'M' != RestrictedMessage[0];
    }
  }

  /** The initial state reads as "no transmission yet", and any submission stamped with a nonzero time ends that. */
  lemma InitialStateAwaits(prevState: ActionState, name: Option<string>, now: int)
    requires now != 0
    ensures AwaitingTransmission(InitialState)
    ensures !AwaitingTransmission(SubmitMission(prevState, name, now))
  {
  }
}
