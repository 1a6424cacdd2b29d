/**
 * `OptionsValidator.Validate`: the start-up checks on a loaded configuration,
 * each adding one fixed message, in a fixed order.
 */
module OptionsValidator {
  import opened Wrappers
  import opened Text
  import opened UpdaterOptions

  const ScheduleConflict: string := ScheduleVar + " cannot be used with " + PollIntervalVar + "."
  const InvalidCron: string := ScheduleVar + " is not a valid six-field cron expression."
  const ReviveNeedsInclude: string := ReviveStoppedVar + " requires " + IncludeStoppedVar + "=true."
  const PollNotPositive: string := PollIntervalVar + " must be greater than zero."
  const TimeoutNotPositive: string := TimeoutVar + " must be greater than zero."

  /** The five messages in the order the checks run. */
  const Messages: seq<string> := [ScheduleConflict, InvalidCron, ReviveNeedsInclude, PollNotPositive, TimeoutNotPositive]

  predicate ScheduleConflicts(o: Options) {
    !IsNullOrWhiteSpace(o.schedule) && o.pollIntervalExplicitlySet
  }

  /** `isValidCron` stands for `CronExpression.Parse(_, CronFormat.IncludeSeconds)` not throwing. */
  predicate ScheduleInvalid(o: Options, isValidCron: string -> bool) {
    !IsNullOrWhiteSpace(o.schedule) && !isValidCron(o.schedule.value)
  }

  predicate ReviveWithoutInclude(o: Options) {
    o.reviveStopped && !o.includeStopped
  }

  /** A configuration that passes every check. */
  predicate Acceptable(o: Options, isValidCron: string -> bool) {
    !ScheduleConflicts(o) && !ScheduleInvalid(o, isValidCron) && !ReviveWithoutInclude(o)
    && o.pollIntervalSeconds > 0 && o.stopTimeout > 0
  }

  /** The position of a message in `Messages`. */
  function Rank(m: string): int {
    if m == ScheduleConflict then 0
    else if m == InvalidCron then 1
    else if m == ReviveNeedsInclude then 2
    else if m == PollNotPositive then 3
    else 4
  }

  function Validate(o: Options, isValidCron: string -> bool): (errors: seq<string>)
    ensures errors == [] <==> Acceptable(o, isValidCron)
    ensures ScheduleConflict in errors <==> ScheduleConflicts(o)
    ensures InvalidCron in errors <==> ScheduleInvalid(o, isValidCron)
    ensures ReviveNeedsInclude in errors <==> ReviveWithoutInclude(o)
    ensures PollNotPositive in errors <==> o.pollIntervalSeconds <= 0
    ensures TimeoutNotPositive in errors <==> o.stopTimeout <= 0
  {
    RanksOfMessages();
    Check(Check(Check(Check(Check([], ScheduleConflicts(o), ScheduleConflict),
                            ScheduleInvalid(o, isValidCron), InvalidCron),
                      ReviveWithoutInclude(o), ReviveNeedsInclude),
                o.pollIntervalSeconds <= 0, PollNotPositive),
          o.stopTimeout <= 0, TimeoutNotPositive)
  }

  /** One check: `errors.Add(message)` when it fires. */
  function Check(errors: seq<string>, fires: bool, message: string): seq<string> {
    if fires then errors + [message] else errors
  }

  /** Messages of strictly increasing rank, all from the fixed list. */
  predicate Ordered(errors: seq<string>, below: int) {
    (forall m | m in errors :: m in Messages && Rank(m) < below)
    && forall i, j | 0 <= i < j < |errors| :: Rank(errors[i]) < Rank(errors[j])
  }

  lemma CheckKeepsOrder(errors: seq<string>, fires: bool, message: string, below: int)
    requires Ordered(errors, Rank(message)) && message in Messages && Rank(message) < below
    ensures Ordered(Check(errors, fires, message), below)
  {
  }

  lemma RanksOfMessages()
    ensures Rank(ScheduleConflict) == 0 && Rank(InvalidCron) == 1 && Rank(ReviveNeedsInclude) == 2
    ensures Rank(PollNotPositive) == 3 && Rank(TimeoutNotPositive) == 4
  {
    assert |ScheduleConflict| == 73 && |InvalidCron| == 65 && |ReviveNeedsInclude| == 75;
    assert |PollNotPositive| == 55 && |TimeoutNotPositive| == 49;
  }

  /** Every message comes from the fixed list, at most once, and in the order the checks run. */
  lemma ValidateInOrder(o: Options, isValidCron: string -> bool)
    ensures var errors := Validate(o, isValidCron);
      (forall m | m in errors :: m in Messages)
      && forall i, j | 0 <= i < j < |errors| :: Rank(errors[i]) < Rank(errors[j])
  {
    RanksOfMessages();
    var e1 := Check([], ScheduleConflicts(o), ScheduleConflict);
    var e2 := Check(e1, ScheduleInvalid(o, isValidCron), InvalidCron);
    var e3 := Check(e2, ReviveWithoutInclude(o), ReviveNeedsInclude);
    var e4 := Check(e3, o.pollIntervalSeconds <= 0, PollNotPositive);
    assert Ordered(e2, 2) by {
      CheckKeepsOrder([], ScheduleConflicts(o), ScheduleConflict, 1);
      CheckKeepsOrder(e1, ScheduleInvalid(o, isValidCron), InvalidCron, 2);
    }
    assert Ordered(e4, 4) by {
      CheckKeepsOrder(e2, ReviveWithoutInclude(o), ReviveNeedsInclude, 3);
      CheckKeepsOrder(e3, o.pollIntervalSeconds <= 0, PollNotPositive, 4);
    }
    CheckKeepsOrder(e4, o.stopTimeout <= 0, TimeoutNotPositive, 5);
  }

  /** The defaults pass validation. */
  lemma DefaultsAreAcceptable(isValidCron: string -> bool)
    ensures Validate(Defaults(), isValidCron) == []
  {
  }
}
