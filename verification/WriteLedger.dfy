/** The write-attempt ledger and one caller of it (src/lib/write-dedupe.ts, write-dedupe-store.ts). */
module WriteLedger {
  // One row per (brain, fingerprint), the five statements over it, and dedupeWrite. Times are
  // epoch milliseconds.

  import opened Options

  const IN_FLIGHT_GRACE_MS: int := 120_000
  const DONE_TTL_MS: int := 600_000

  /** A fingerprint is a hash of the call's arguments, taken as the arguments themselves. */
  datatype Key = Key(brain: string, fingerprint: string)

  datatype State = InFlight | Done
  datatype Attempt = Attempt(state: State, startedAt: int, completedAt: Option<int>, summary: Option<string>)

  type Rows = map<Key, Attempt>

  function Lookup(rows: Rows, k: Key): Option<Attempt> {
    if k in rows then Some(rows[k]) else None
  }

  function FinishedAt(a: Attempt): int {
    if a.completedAt.Some? then a.completedAt.value else a.startedAt
  }

  // ---------- the statements ----------

  predicate TooOld(a: Attempt, now: int) {
    if a.state.InFlight? then a.startedAt < now - IN_FLIGHT_GRACE_MS
    else FinishedAt(a) < now - DONE_TTL_MS
  }

  function Pruned(rows: Rows, now: int): Rows {
    map k | k in rows && !TooOld(rows[k], now) :: rows[k]
  }

  /** Whether the one claiming statement would change a row. */
  predicate Claimable(rows: Rows, k: Key, now: int) {
    k !in rows || (rows[k].state.InFlight? && rows[k].startedAt < now - IN_FLIGHT_GRACE_MS)
  }

  function Claimed(rows: Rows, k: Key, now: int): Rows {
    if Claimable(rows, k, now) then rows[k := Attempt(InFlight, now, None, None)] else rows
  }

  function Completed(rows: Rows, k: Key, at: int, summary: string): Rows {
    if k in rows then rows[k := rows[k].(state := Done, completedAt := Some(at), summary := Some(summary))] else rows
  }

  function Released(rows: Rows, k: Key): Rows {
    rows - {k}
  }

  // ---------- decideWrite ----------

  datatype Verdict = Proceed | Replay(attempt: Attempt) | Busy(attempt: Attempt)

  function Decide(a: Option<Attempt>, now: int): Verdict {
    if a.None? then Proceed
    else if a.value.state.Done? then
      if now - FinishedAt(a.value) >= DONE_TTL_MS then Proceed else Replay(a.value)
    else if now - a.value.startedAt >= IN_FLIGHT_GRACE_MS then Proceed
    else Busy(a.value)
  }

  /** Pruning with a caller's own clock never changes what that caller, or any later
      one, would be told. */
  lemma PruneIsInvisible(rows: Rows, k: Key, now: int, later: int)
    requires now <= later
    ensures Decide(Lookup(Pruned(rows, now), k), later) == Decide(Lookup(rows, k), later)
  {
  }

  // ---------- one caller, uninterrupted ----------

  /** What perform returned: a landed write and its text, a refusal, or an exception. */
  datatype Outcome = Landed(text: string) | Refused(text: string) | Threw

  datatype Reply = Answer(outcome: Outcome) | Replayed(summary: Option<string>) | InProgress

  /** What a call whose ledger statements no other caller interrupts does first. */
  datatype Course =
    | Owns            // performs, with the row claimed in its name
    | Trespasses      // performs although both its claims lost
    | Repeats(attempt: Attempt)
    | Waits

  function CourseOf(rows: Rows, k: Key, now: int): Course {
    var r1 := Pruned(rows, now);
    if Claimable(r1, k, now) then Owns
    else
      match Decide(Lookup(r1, k), now)
      case Replay(a) => Repeats(a)
      case Busy(_) => Waits
      case Proceed => if Claimable(r1, k, now) then Owns else Trespasses
  }

  function ReplyOf(course: Course, outcome: Outcome): Reply {
    match course
    case Repeats(a) => Replayed(a.summary)
    case Waits => InProgress
    case _ => Answer(outcome)
  }

  /** The whole table, to the millisecond: a call performs on a row of its own when there
      is none or its window has passed, repeats or waits inside the window, and on the
      window's exact last millisecond performs while another caller's row stands. */
  lemma CourseByAge(rows: Rows, k: Key, now: int)
    ensures CourseOf(rows, k, now) ==
      if k !in rows then Owns
      else
        var a := rows[k];
        var age, window :=
          if a.state.Done? then now - FinishedAt(a) else now - a.startedAt,
          if a.state.Done? then 10 * 60 * 1000 else 2 * 60 * 1000;
        if age > window then Owns
        else if age == window then Trespasses
        else if a.state.Done? then Repeats(a) else Waits
  {
    var r1 := Pruned(rows, now);
    if k in rows {
      assert k in r1 <==> !TooOld(rows[k], now);
    }
  }

  /** The row a call leaves under its own key, and that it leaves every other live row. */
  function AfterCall(rows: Rows, k: Key, now: int, outcome: Outcome, bookkeepingFails: bool): Rows {
    var r1 := Pruned(rows, now);
    if CourseOf(rows, k, now).Repeats? || CourseOf(rows, k, now).Waits? then r1
    else
      var r2 := Claimed(r1, k, now);
      if bookkeepingFails then r2
      else if outcome.Landed? then Completed(r2, k, now, outcome.text)
      else Released(r2, k)
  }

  /** A row that is gone is not brought back by the late end of its call, and no end of a call makes one. */
  lemma NoRowComesBack(rows: Rows, k: Key, at: int, summary: string)
    ensures Completed(rows, k, at, summary).Keys == rows.Keys
    ensures Completed(Released(rows, k), k, at, summary) == Released(rows, k)
  {
  }

  class Ledger {
    var rows: Rows

    constructor ()
      ensures rows == map[]
    {
      rows := map[];
    }

    method Prune(now: int)
      modifies this
      ensures rows == Pruned(old(rows), now)
    {
      rows := map k | k in rows && !TooOld(rows[k], now) :: rows[k];
    }

    /** One statement, so two callers cannot both win. */
    method Claim(k: Key, now: int) returns (won: bool)
      modifies this
      ensures won <==> Claimable(old(rows), k, now)
      ensures rows == Claimed(old(rows), k, now)
    {
      if k !in rows {
        rows := rows[k := Attempt(InFlight, now, None, None)];
        return true;
      }
      var a := rows[k];
      won := a.state.InFlight? && a.startedAt < now - IN_FLIGHT_GRACE_MS;
      if won {
        rows := rows[k := a.(state := InFlight, startedAt := now, completedAt := None, summary := None)];
      }
    }

    method Complete(k: Key, at: int, summary: string)
      modifies this
      ensures rows == Completed(old(rows), k, at, summary)
    {
      if k in rows {
        rows := rows[k := rows[k].(state := Done, completedAt := Some(at), summary := Some(summary))];
      }
    }

    method Release(k: Key)
      modifies this
      ensures rows == old(rows) - {k}
      ensures k !in rows
    {
      rows := rows - {k};
    }

    /** dedupeWrite. `outcome` is what perform would return; it is used only when the call
        performs. A failure to record never changes the reply. */
    method DedupeWrite(k: Key, now: int, outcome: Outcome, bookkeepingFails: bool) returns (reply: Reply, performed: bool)
      modifies this
      ensures performed <==> CourseOf(old(rows), k, now).Owns? || CourseOf(old(rows), k, now).Trespasses?
      ensures reply == ReplyOf(CourseOf(old(rows), k, now), outcome)
      ensures rows == AfterCall(old(rows), k, now, outcome, bookkeepingFails)
    {
      Prune(now);
      var mine := Claim(k, now);
      if !mine {
        var verdict := Decide(Lookup(rows, k), now);
        if verdict.Replay? {
          return Replayed(verdict.attempt.summary), false;
        }
        if verdict.Busy? {
          return InProgress, false;
        }
        var _ := Claim(k, now);
      }
      reply, performed := Answer(outcome), true;
      if bookkeepingFails {
        return;
      }
      match outcome
      case Landed(text) => Complete(k, now, text);
      case Refused(_) => Release(k);
      case Threw => Release(k);
    }
  }

  /** After a call: a landed write is remembered under its key with its text and its own
      start time, a refusal or a throw leaves no row, and any other key's row is kept
      unless its window has passed. */
  lemma AfterCallRows(rows: Rows, k: Key, now: int, outcome: Outcome)
    requires CourseOf(rows, k, now).Owns? || CourseOf(rows, k, now).Trespasses?
    ensures var after := AfterCall(rows, k, now, outcome, false);
      && (outcome.Landed? ==>
            && k in after && after[k].state.Done?
            && after[k].completedAt == Some(now) && after[k].summary == Some(outcome.text))
      && (!outcome.Landed? ==> k !in after)
      && (forall j :: j != k ==> (j in after <==> j in rows && !TooOld(rows[j], now)))
      && (forall j :: j != k && j in after ==> after[j] == rows[j])
  {
    CourseByAge(rows, k, now);
  }

  /** A landed write answers its identical retry for the whole window after it, and one
      landing at `now` is a new write strictly after it. */
  lemma RetryAfterLanding(rows: Rows, k: Key, now: int, text: string, later: int)
    requires CourseOf(rows, k, now).Owns? || CourseOf(rows, k, now).Trespasses?
    requires now <= later
    ensures var course := CourseOf(AfterCall(rows, k, now, Landed(text), false), k, later);
      && (later < now + 600_000 ==> course.Repeats? && course.attempt.summary == Some(text))
      && (later > now + 600_000 ==> course.Owns?)
      && (later == now + 600_000 ==> course.Trespasses?)
  {
    AfterCallRows(rows, k, now, Landed(text));
    CourseByAge(AfterCall(rows, k, now, Landed(text), false), k, later);
  }

  /** A call that died after claiming blocks its retries for less than the grace period. */
  lemma AbandonedClaim(rows: Rows, k: Key, now: int, later: int)
    requires Claimable(Pruned(rows, now), k, now) && now <= later
    ensures var course := CourseOf(Claimed(Pruned(rows, now), k, now), k, later);
      course.Waits? <==> later < now + 120_000
  {
    CourseByAge(Claimed(Pruned(rows, now), k, now), k, later);
  }

  predicate Performs(rows: Rows, k: Key, now: int) {
    CourseOf(rows, k, now).Owns? || CourseOf(rows, k, now).Trespasses?
  }

  /** WHAT A CALL LEAVES ALONE. Under any other key, and under its own when it does not perform, a call
      leaves each row inside its window exactly as it was and no other; so every later call, of
      any key, goes as it would have gone. */
  lemma CallKeepsTheRest(rows: Rows, k: Key, now: int, outcome: Outcome, bookkeepingFails: bool, j: Key, later: int)
    requires now <= later && (j != k || !Performs(rows, k, now))
    ensures var after := AfterCall(rows, k, now, outcome, bookkeepingFails);
      && Lookup(after, j) == (if j in rows && !TooOld(rows[j], now) then Some(rows[j]) else None)
      && CourseOf(after, j, later) == CourseOf(rows, j, later)
  {
    var after := AfterCall(rows, k, now, outcome, bookkeepingFails);
    CourseByAge(rows, j, later);
    CourseByAge(after, j, later);
  }

  /** WHAT A CALL THAT PERFORMS MEANS TO THE NEXT. Recorded, a landed write is repeated and anything else is
      free to be tried again. When the bookkeeping fails, the call's own claim stays as though the
      call had died, and a row that was another's stays that other's. */
  lemma CallMeansToTheNext(rows: Rows, k: Key, now: int, outcome: Outcome, bookkeepingFails: bool, later: int)
    requires now <= later && Performs(rows, k, now)
    ensures var next := CourseOf(AfterCall(rows, k, now, outcome, bookkeepingFails), k, later);
      if bookkeepingFails then
        if CourseOf(rows, k, now).Trespasses? then next == CourseOf(rows, k, later)
        else next == if later > now + IN_FLIGHT_GRACE_MS then Owns
          else if later == now + IN_FLIGHT_GRACE_MS then Trespasses
          else Waits
      else if outcome.Landed? then
        if later > now + DONE_TTL_MS then next.Owns?
        else if later == now + DONE_TTL_MS then next.Trespasses?
        else next.Repeats? && next.attempt.summary == Some(outcome.text)
      else next.Owns?
  {
    var after := AfterCall(rows, k, now, outcome, bookkeepingFails);
    CourseByAge(rows, k, now);
    CourseByAge(rows, k, later);
    CourseByAge(after, k, later);
  }
}
