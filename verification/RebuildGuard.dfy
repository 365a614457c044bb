/** The watch loop's debounce and re-entrancy guard (scripts/app-dev.ts, trigger and runGenApp). */
module RebuildGuard {
  // Watch events, timer firings and build ends may come in any order.

  import opened Options

  predicate EndsWith(s: string, t: string) {
    |t| <= |s| && s[|s| - |t|..] == t
  }

  predicate StandsAt(s: string, t: string, i: nat) {
    i + |t| <= |s| && s[i..i + |t|] == t
  }

  predicate Contains(s: string, t: string) {
    exists i :: 0 <= i <= |s| && StandsAt(s, t, i)
  }

  /** The files that set the timer: sources, and no output of the generators. */
  predicate Accepts(file: Option<string>) {
    && file.Some?
    && (EndsWith(file.value, ".tsx") || EndsWith(file.value, ".ts") || EndsWith(file.value, ".css") || EndsWith(file.value, ".html"))
    && !Contains(file.value, ".tailwind.out") && !Contains(file.value, ".generated.")
  }

  /** The three variables, and beside them what has happened: how many edits were accepted,
      how many of them the last build started after, and how often the timer fired and a build
      started and ended. */
  datatype State = State(pending: bool, running: bool, rerun: bool,
                         edits: nat, seen: nat, fired: nat, started: nat, ended: nat)

  datatype Event = Watch(file: Option<string>) | Fire | Finish

  predicate Enabled(s: State, e: Event) {
    match e
    case Watch(_) => true
    case Fire => s.pending
    case Finish => s.running
  }

  function RunGenApp(s: State): State {
    if s.running then s.(rerun := true)
    else s.(running := true, seen := s.edits, started := s.started + 1)
  }

  function Apply(s: State, e: Event): State
    requires Enabled(s, e)
  {
    match e
    case Watch(file) => if Accepts(file) then s.(pending := true, edits := s.edits + 1) else s
    case Fire => RunGenApp(s.(pending := false, fired := s.fired + 1))
    case Finish =>
      var t := s.(running := false, ended := s.ended + 1);
      if t.rerun then RunGenApp(t.(rerun := false)) else t
  }

  const IDLE: State := State(false, false, false, 0, 0, 0, 0, 0)

  ghost predicate RunOf(ss: seq<State>, es: seq<Event>) {
    |ss| == |es| + 1 && ss[0] == IDLE && forall i :: 0 <= i < |es| ==> StepAt(ss, es, i)
  }

  ghost predicate StepAt(ss: seq<State>, es: seq<Event>, i: nat)
    requires i < |es| && |ss| == |es| + 1
  {
    Enabled(ss[i], es[i]) && ss[i + 1] == Apply(ss[i], es[i])
  }

  /** The loop's variables, changed by the callbacks. */
  class WatchLoop {
    var pending: bool
    var running: bool
    var rerun: bool
    ghost var edits: nat
    ghost var seen: nat
    ghost var fired: nat
    ghost var started: nat
    ghost var ended: nat

    ghost function View(): State
      reads this
    {
      State(pending, running, rerun, edits, seen, fired, started, ended)
    }

    constructor ()
      ensures View() == IDLE
    {
      pending, running, rerun := false, false, false;
      edits, seen, fired, started, ended := 0, 0, 0, 0, 0;
    }

    method Trigger(file: Option<string>)
      modifies this
      ensures View() == Apply(old(View()), Watch(file))
    {
      if !Accepts(file) {
        return;
      }
      pending := true;
      edits := edits + 1;
    }

    method RunBuild()
      modifies this
      ensures View() == RunGenApp(old(View()))
    {
      if running {
        rerun := true;
        return;
      }
      running := true;
      seen, started := edits, started + 1;
    }

    method TimerFires()
      requires pending
      modifies this
      ensures View() == Apply(old(View()), Fire)
    {
      pending := false;
      fired := fired + 1;
      RunBuild();
    }

    method BuildEnds()
      requires running
      modifies this
      ensures View() == Apply(old(View()), Finish)
    {
      running := false;
      ended := ended + 1;
      if rerun {
        rerun := false;
        RunBuild();
      }
    }
  }

  predicate Inv(s: State) {
    && (s.rerun ==> s.running)
    && s.started == s.ended + (if s.running then 1 else 0)
    && s.seen <= s.edits
    && (s.seen < s.edits ==> s.pending || s.rerun)
    && s.started + (if s.rerun then 1 else 0) <= s.fired <= s.edits
    && (s.pending ==> s.fired < s.edits)
  }

  lemma {:induction false} RunKeepsInv(ss: seq<State>, es: seq<Event>, i: nat)
    requires RunOf(ss, es) && i < |ss|
    ensures Inv(ss[i])
  {
    hide Accepts;
    if i > 0 {
      RunKeepsInv(ss, es, i - 1);
      assert StepAt(ss, es, i - 1);
    }
  }

  /** NOTHING IS MISSED AND NOTHING PILES UP. In every order of edits, timer firings and build
      ends, at most one build runs, a follow-up is queued only while one does, there are no
      more builds than accepted edits, and whenever no timer is set and nothing runs, the last
      build started after the last accepted edit. */
  lemma QuietMeansBuilt(ss: seq<State>, es: seq<Event>, i: nat)
    requires RunOf(ss, es) && i < |ss|
    ensures var s := ss[i];
      && s.started - s.ended <= 1 && (s.rerun ==> s.running)
      && s.started <= s.edits
      && (!s.pending && !s.running ==> s.seen == s.edits)
  {
    RunKeepsInv(ss, es, i);
  }

  /** How much is left to do without another edit. */
  function Left(s: State): nat {
    (if s.pending then 2 else 0) + (if s.rerun then 1 else 0) + (if s.running then 1 else 0)
  }

  /** QUIET COMES. Without another accepted edit each firing and each build end leaves less to
      do, so after at most four of them all is quiet. */
  lemma {:induction false} QuietComes(ss: seq<State>, es: seq<Event>, i: nat, n: nat)
    requires RunOf(ss, es) && i + n < |ss|
    requires forall j :: i <= j < i + n ==> !es[j].Watch?
    ensures Left(ss[i + n]) + n <= Left(ss[i]) <= 4
  {
    hide Accepts;
    RunKeepsInv(ss, es, i);
    if n > 0 {
      QuietComes(ss, es, i, n - 1);
      assert StepAt(ss, es, i + n - 1);
    }
  }
}
