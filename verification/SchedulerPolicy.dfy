/** What the scheduler does with an overdue event, as a decision over the
    answers its lookups give. Shared by the event dispatcher, where every
    answer may be stale or missing, and by the round lifecycle, where reads
    are current. */
module SchedulerPolicy {
  import opened Options
  import opened RoundTiming

  const STALE_EVENT_CEILING := 48 * HOUR

  datatype Status = Draft | Collecting | Published

  /** A store read either answers or fails. */
  datatype Lookup<+T> = Found(value: T) | Failed

  /** The part of an issue row the skip policy reads. */
  datatype Round = Round(status: Status, deadline: Instant)

  datatype FiredReason = Handled | Skipped | ArchivedLoop

  datatype Decision = LeavePending | MarkOnly(reason: FiredReason) | RunHandler

  /** shouldSkipEvent: has an overdue event been overtaken by reality? */
  predicate ShouldSkip(kind: EventKind, hasIssue: bool, round: Lookup<Round>, at: Instant, now: Instant) {
    var applyCeiling := kind.AutoClose? || kind.AdminSummary?;
    var late := applyCeiling && now - at > STALE_EVENT_CEILING;
    if !kind.IsReminder() && !applyCeiling && !kind.CreateNextIssue? then false
    else if !hasIssue then late
    else if round.Failed? then false
    else if kind.CreateNextIssue? then !round.value.status.Draft? || late
    else if !round.value.status.Collecting? then true
    else if kind.IsReminder() && now > round.value.deadline then true
    else late
  }

  /** fireEvent up to the point where it calls a handler. */
  function Decide(
    pending: Lookup<bool>, hasIssue: bool, loopActive: Lookup<bool>, round: Lookup<Round>,
    kind: EventKind, at: Instant, now: Instant): Decision
  {
    if pending != Found(true) then LeavePending
    else if hasIssue && loopActive == Found(false) then MarkOnly(ArchivedLoop)
    else if ShouldSkip(kind, hasIssue, round, at, now) then MarkOnly(Skipped)
    else RunHandler
  }

  /** What has overtaken an event of a round, kind by kind. */
  predicate Overtaken(kind: EventKind, round: Round, at: Instant, now: Instant) {
    match kind
    case AutoClose => round.status != Collecting || now - at > 48 * 3600
    case AdminSummary => round.status != Collecting || now - at > 48 * 3600
    case CreateNextIssue => round.status != Draft
    case Reminder1 => round.status != Collecting || now > round.deadline
    case Reminder2 => round.status != Collecting || now > round.deadline
    case _ => false
  }

  /** The whole decision. An event the write side does not confirm is left
      alone; one of a loop read as archived is marked; one of a round that was
      read is marked exactly when it has been overtaken, and one of no round
      exactly when it is a close or a summary more than 48 hours late; every
      other one runs its handler, also when its round could not be read. */
  lemma DecidedByKind(
    pending: Lookup<bool>, hasIssue: bool, loopActive: Lookup<bool>, round: Lookup<Round>,
    kind: EventKind, at: Instant, now: Instant)
    ensures var decision := Decide(pending, hasIssue, loopActive, round, kind, at, now);
            var archived := hasIssue && loopActive == Found(false);
            var overtaken :=
              if hasIssue then round.Found? && Overtaken(kind, round.value, at, now)
              else (kind.AutoClose? || kind.AdminSummary?) && now - at > 48 * 3600;
            && (decision.LeavePending? <==> pending != Found(true))
            && (decision == MarkOnly(ArchivedLoop) <==> pending == Found(true) && archived)
            && (decision == MarkOnly(Skipped) <==> pending == Found(true) && !archived && overtaken)
            && (decision.RunHandler? <==> pending == Found(true) && !archived && !overtaken)
  {
  }

  /** Nothing consumes an event unhandled on a guess: only a current "not
      fired" answer together with a successful read of an archived loop or of
      an overtaken round, or, for an event naming no round, the lateness
      ceiling. */
  lemma ConsumedOnEvidence(
    pending: Lookup<bool>, hasIssue: bool, loopActive: Lookup<bool>, round: Lookup<Round>,
    kind: EventKind, at: Instant, now: Instant)
    requires Decide(pending, hasIssue, loopActive, round, kind, at, now).MarkOnly?
    ensures pending == Found(true)
    ensures hasIssue ==> loopActive == Found(false) || round.Found?
    ensures !hasIssue ==> (kind.AutoClose? || kind.AdminSummary?) && now - at > STALE_EVENT_CEILING
  {
  }

  /** A reminder is never skipped for being late, only for being pointless;
      the cleanups and the digest are never skipped. */
  lemma LatenessNeverSkipsReminders(kind: EventKind, round: Round, at: Instant, now: Instant)
    ensures kind.IsReminder() ==>
              (ShouldSkip(kind, true, Found(round), at, now)
               <==> !round.status.Collecting? || round.deadline < now)
    ensures kind.TokenCleanup? || kind.SessionCleanup? || kind.CommentDigest? ==>
              forall hasIssue, lookup :: !ShouldSkip(kind, hasIssue, lookup, at, now)
  {
  }
}
