/** Many callers on one ledger, interleaved statement by statement. */
module LedgerRuns {
  // `complete` and `release` carry no owner token and the second claim's answer is not read, so
  // what the protocol guarantees is conditional; this module says on what, and shows the run
  // that breaks it otherwise.

  import opened Options
  import opened WriteLedger

  type CallId = nat

  /** Where one dedupeWrite stands. Active phases are Performing and Recording. */
  datatype Phase =
    | Started
    | Pruning
    | Reading
    | Reclaiming
    | Performing
    | Recording(outcome: Outcome)
    | Ended(reply: Reply)
    | Killed

  datatype Call = Call(key: Key, now: int, phase: Phase)

  /** A commit that landed: its key, the start time of the call that landed it, its text. */
  datatype Landing = Landing(key: Key, at: int, text: string)

  datatype World = World(clock: int, rows: Rows, calls: map<CallId, Call>, landings: set<Landing>)

  predicate Active(c: Call) {
    c.phase.Performing? || c.phase.Recording?
  }

  datatype Step =
    | Tick(to: int)
    | Begin(id: CallId, key: Key)
    | Prune(id: CallId)
    | Claim(id: CallId)
    | Read(id: CallId)
    | Reclaim(id: CallId)
    | Perform(id: CallId, outcome: Outcome)
    | Record(id: CallId)
    | LoseRecord(id: CallId)
    | Kill(id: CallId)

  function SetPhase(w: World, id: CallId, phase: Phase): World
    requires id in w.calls
  {
    w.(calls := w.calls[id := w.calls[id].(phase := phase)])
  }

  predicate Enabled(w: World, s: Step) {
    match s
    case Tick(to) => w.clock < to
    case Begin(id, _) => id !in w.calls
    case Prune(id) => id in w.calls && w.calls[id].phase.Started?
    case Claim(id) => id in w.calls && w.calls[id].phase.Pruning?
    case Read(id) => id in w.calls && w.calls[id].phase.Reading?
    case Reclaim(id) => id in w.calls && w.calls[id].phase.Reclaiming?
    case Perform(id, _) => id in w.calls && w.calls[id].phase.Performing?
    case Record(id) => id in w.calls && w.calls[id].phase.Recording?
    case LoseRecord(id) => id in w.calls && w.calls[id].phase.Recording?
    case Kill(id) => id in w.calls && !w.calls[id].phase.Ended?
  }

  function Apply(w: World, s: Step): World
    requires Enabled(w, s)
  {
    match s
    case Tick(to) => w.(clock := to)
    case Begin(id, k) => w.(calls := w.calls[id := Call(k, w.clock, Started)])
    case Prune(id) => SetPhase(w.(rows := Pruned(w.rows, w.calls[id].now)), id, Pruning)
    case Claim(id) =>
      var c := w.calls[id];
      SetPhase(w.(rows := Claimed(w.rows, c.key, c.now)), id,
        if Claimable(w.rows, c.key, c.now) then Performing else Reading)
    case Read(id) =>
      var c := w.calls[id];
      SetPhase(w, id, match Decide(Lookup(w.rows, c.key), c.now)
        case Replay(a) => Ended(Replayed(a.summary))
        case Busy(_) => Ended(InProgress)
        case Proceed => Reclaiming)
    case Reclaim(id) =>
      var c := w.calls[id];
      SetPhase(w.(rows := Claimed(w.rows, c.key, c.now)), id, Performing)
    case Perform(id, outcome) =>
      var c := w.calls[id];
      SetPhase(
        if outcome.Landed? then w.(landings := w.landings + {Landing(c.key, c.now, outcome.text)}) else w,
        id, Recording(outcome))
    case Record(id) =>
      var c := w.calls[id];
      var o := c.phase.outcome;
      SetPhase(
        w.(rows := if o.Landed? then Completed(w.rows, c.key, c.now, o.text) else Released(w.rows, c.key)),
        id, Ended(Answer(o)))
    case LoseRecord(id) => SetPhase(w, id, Ended(Answer(w.calls[id].phase.outcome)))
    case Kill(id) => SetPhase(w, id, Killed)
  }

  ghost predicate Run(ws: seq<World>, ss: seq<Step>) {
    && |ws| == |ss| + 1
    && ws[0].rows == map[] && ws[0].calls == map[] && ws[0].landings == {}
    && forall i :: 0 <= i < |ss| ==> StepAt(ws, ss, i)
  }

  ghost predicate StepAt(ws: seq<World>, ss: seq<Step>, i: nat)
    requires i < |ss| && |ws| == |ss| + 1
  {
    Enabled(ws[i], ss[i]) && ws[i + 1] == Apply(ws[i], ss[i])
  }

  // ---------- with no assumption at all ----------

  /** A done row is a write that landed under its key, by a call of that time. */
  predicate HoldsLanding(w: World, k: Key)
    requires k in w.rows
  {
    w.rows[k].summary.Some? && Landing(k, FinishedAt(w.rows[k]), w.rows[k].summary.value) in w.landings
  }

  /** Every row that carries a text got it from a write that landed under its key, and
      every reply that quotes one does too. */
  ghost predicate Honest(w: World) {
    && (forall k :: k in w.rows && w.rows[k].state.Done? ==> HoldsLanding(w, k))
    && (forall k :: k in w.rows && w.rows[k].summary.Some? ==> w.rows[k].state.Done?)
    && (forall id :: id in w.calls && w.calls[id].phase.Recording? && w.calls[id].phase.outcome.Landed? ==>
          Landing(w.calls[id].key, w.calls[id].now, w.calls[id].phase.outcome.text) in w.landings)
    && (forall id :: id in w.calls && w.calls[id].phase.Ended? && w.calls[id].phase.reply.Replayed? ==>
          var r := w.calls[id].phase.reply.summary;
          r.Some? && exists at :: Landing(w.calls[id].key, at, r.value) in w.landings)
  }

  lemma HonestStep(w: World, s: Step)
    requires Honest(w) && Enabled(w, s)
    ensures Honest(Apply(w, s))
  {
    var w' := Apply(w, s);
    forall k | k in w'.rows && w'.rows[k].state.Done? ensures HoldsLanding(w', k) {
      if k in w.rows && w.rows[k] == w'.rows[k] {
        assert HoldsLanding(w, k);
      } else {
        assert s.Record?;
      }
    }
    forall id | id in w'.calls && w'.calls[id].phase.Ended? && w'.calls[id].phase.reply.Replayed?
      ensures var r := w'.calls[id].phase.reply.summary;
        r.Some? && exists at :: Landing(w'.calls[id].key, at, r.value) in w'.landings
    {
      if s.Read? && s.id == id {
        var k := w.calls[id].key;
        assert HoldsLanding(w, k);
        assert Landing(k, FinishedAt(w.rows[k]), w'.calls[id].phase.reply.summary.value) in w'.landings;
      } else {
        assert w.calls[id] == w'.calls[id];
        var at :| Landing(w.calls[id].key, at, w.calls[id].phase.reply.summary.value) in w.landings;
        assert Landing(w'.calls[id].key, at, w'.calls[id].phase.reply.summary.value) in w'.landings;
      }
    }
  }

  /** In every run, every replayed answer is the text of a write that landed under the
      caller's own key. */
  lemma {:induction false} ReplaysAreLandings(ws: seq<World>, ss: seq<Step>)
    requires Run(ws, ss)
    ensures Honest(ws[|ss|])
    decreases |ss|
  {
    if |ss| > 0 {
      var n := |ss| - 1;
      forall i | 0 <= i < n ensures StepAt(ws[..|ss|], ss[..n], i) {
        assert StepAt(ws, ss, i);
      }
      ReplaysAreLandings(ws[..|ss|], ss[..n]);
      assert StepAt(ws, ss, n);
      HonestStep(ws[n], ss[n]);
    }
  }

  /** A step taken by one call leaves another key's row alone, unless it is a prune, and
      then the row it drops was one no caller from now on would have been stopped by. */
  lemma OtherKeysDoNotInterfere(w: World, s: Step, id: CallId, k: Key, later: int)
    requires Enabled(w, s) && !s.Tick? && !s.Begin? && s.id == id && w.calls[id].key != k
    requires w.calls[id].now <= later
    ensures var w' := Apply(w, s);
      && Decide(Lookup(w'.rows, k), later) == Decide(Lookup(w.rows, k), later)
      && (!s.Prune? ==> Lookup(w'.rows, k) == Lookup(w.rows, k))
  {
    if s.Prune? { PruneIsInvisible(w.rows, k, w.calls[id].now, later); }
  }

  // ---------- at most once ----------

  /** The step starts a handler. */
  predicate Enters(w: World, s: Step)
    requires Enabled(w, s)
  {
    s.Reclaim? || (s.Claim? && Claimable(w.rows, w.calls[s.id].key, w.calls[s.id].now))
  }

  /** The assumptions: a handler starts, and ends with its bookkeeping, within the
      grace period of its call's start, a landed write is recorded, and a second claim is never lost. */
  predicate Orderly(w: World, s: Step) {
    && Enabled(w, s)
    && (s.Tick? ==> forall id :: id in w.calls && Active(w.calls[id]) ==> s.to <= w.calls[id].now + IN_FLIGHT_GRACE_MS)
    && (s.LoseRecord? ==> !w.calls[s.id].phase.outcome.Landed?)
    && (s.Kill? ==> !(w.calls[s.id].phase.Recording? && w.calls[s.id].phase.outcome.Landed?))
    && (s.Reclaim? ==> Claimable(w.rows, w.calls[s.id].key, w.calls[s.id].now))
    && (Enters(w, s) ==> w.clock <= w.calls[s.id].now + IN_FLIGHT_GRACE_MS)
  }

  /** The row a call in progress holds. */
  predicate Holds(w: World, c: Call) {
    c.key in w.rows && w.rows[c.key] == Attempt(InFlight, c.now, None, None)
  }

  /** The landing is still being recorded, or its window has passed, or its row stands. */
  ghost predicate Remembered(w: World, l: Landing) {
    || w.clock > l.at + DONE_TTL_MS
    || (exists id :: id in w.calls && w.calls[id].phase == Recording(Landed(l.text))
          && w.calls[id].key == l.key && w.calls[id].now == l.at)
    || (l.key in w.rows && w.rows[l.key].state.Done? && FinishedAt(w.rows[l.key]) >= l.at)
  }

  /** No two handlers on one key overlap. */
  predicate OneAtATime(w: World) {
    forall a, b :: (a in w.calls && b in w.calls && Active(w.calls[a]) && Active(w.calls[b])
      && w.calls[a].key == w.calls[b].key) ==> a == b
  }

  ghost predicate Inv(w: World) {
    && (forall id :: id in w.calls ==> w.calls[id].now <= w.clock)
    && (forall id :: id in w.calls && Active(w.calls[id]) ==>
          Holds(w, w.calls[id]) && w.clock <= w.calls[id].now + IN_FLIGHT_GRACE_MS)
    && OneAtATime(w)
    && (forall l :: l in w.landings ==> Remembered(w, l))
    && (forall l :: l in w.landings ==> l.at <= w.clock)
    && (forall k :: k in w.rows ==> FinishedAt(w.rows[k]) <= w.clock)
  }

  /** No call is performing, and no landing is inside its window, where a claim wins. */
  lemma ClaimFindsNobody(w: World, k: Key, now: int)
    requires Inv(w) && now <= w.clock && Claimable(w.rows, k, now)
    ensures forall id :: id in w.calls && w.calls[id].key == k ==> !Active(w.calls[id])
    ensures forall l :: l in w.landings && l.key == k ==> w.clock > l.at + DONE_TTL_MS
  {
    forall l | l in w.landings && l.key == k ensures w.clock > l.at + DONE_TTL_MS {
      assert Remembered(w, l);
    }
  }

  /** A claim that won: its call alone holds the row. */
  lemma ClaimKeeps(w: World, id: CallId)
    requires Inv(w) && id in w.calls && !Active(w.calls[id])
    requires Claimable(w.rows, w.calls[id].key, w.calls[id].now)
    requires w.clock <= w.calls[id].now + IN_FLIGHT_GRACE_MS
    ensures Inv(SetPhase(w.(rows := Claimed(w.rows, w.calls[id].key, w.calls[id].now)), id, Performing))
  {
    var c := w.calls[id];
    var w' := SetPhase(w.(rows := Claimed(w.rows, c.key, c.now)), id, Performing);
    ClaimFindsNobody(w, c.key, c.now);
    forall l | l in w'.landings ensures Remembered(w', l) {
      StillRemembered(w, w', l, id);
    }
  }

  /** A landing whose recorder did not move stays remembered while its row does not. */
  lemma StillRemembered(w: World, w': World, l: Landing, id: CallId)
    requires Remembered(w, l) && w'.clock >= w.clock && w'.calls.Keys >= w.calls.Keys
    requires forall j :: j in w.calls && j != id ==> w'.calls[j] == w.calls[j]
    requires id in w.calls ==> !(w.calls[id].phase.Recording? && w.calls[id].phase.outcome.Landed?)
    requires l.key in w.rows && w.rows[l.key].state.Done? && w'.clock <= l.at + DONE_TTL_MS ==>
      l.key in w'.rows && w'.rows[l.key] == w.rows[l.key]
    ensures Remembered(w', l)
  {
    if j :| j in w.calls && w.calls[j].phase == Recording(Landed(l.text)) && w.calls[j].key == l.key && w.calls[j].now == l.at {
      assert w'.calls[j] == w.calls[j];
    }
  }

  lemma PruneKeeps(w: World, id: CallId)
    requires Inv(w) && Enabled(w, Prune(id))
    ensures Inv(Apply(w, Prune(id)))
  {
    var w' := Apply(w, Prune(id));
    forall j | j in w'.calls && Active(w'.calls[j]) ensures Holds(w', w'.calls[j]) {
      assert Holds(w, w.calls[j]);
    }
    forall l | l in w'.landings ensures Remembered(w', l) {
      assert Remembered(w, l);
      StillRemembered(w, w', l, id);
    }
  }

  lemma TickKeeps(w: World, to: int)
    requires Inv(w) && Orderly(w, Tick(to))
    ensures Inv(Apply(w, Tick(to)))
  {
    var w' := Apply(w, Tick(to));
    forall l | l in w'.landings ensures Remembered(w', l) {
      assert Remembered(w, l);
      if w.clock <= l.at + DONE_TTL_MS && !(l.key in w.rows && w.rows[l.key].state.Done? && FinishedAt(w.rows[l.key]) >= l.at) {
        var j :| j in w.calls && w.calls[j].phase == Recording(Landed(l.text)) && w.calls[j].key == l.key && w.calls[j].now == l.at;
        assert w'.calls[j] == w.calls[j];
      }
    }
  }

  /** Steps that move one inactive call and no row. */
  lemma QuietKeeps(w: World, w': World, id: CallId)
    requires Inv(w)
    requires w'.rows == w.rows && w'.clock == w.clock && w'.landings == w.landings
    requires w'.calls.Keys == w.calls.Keys + {id}
    requires forall j :: j in w.calls && j != id ==> w'.calls[j] == w.calls[j]
    requires !Active(w'.calls[id]) && w'.calls[id].now <= w.clock
    requires id in w.calls ==> !(w.calls[id].phase.Recording? && w.calls[id].phase.outcome.Landed?)
    ensures Inv(w')
  {
    forall l | l in w'.landings ensures Remembered(w', l) {
      assert Remembered(w, l);
      StillRemembered(w, w', l, id);
    }
  }

  lemma PerformKeeps(w: World, id: CallId, outcome: Outcome)
    requires Inv(w) && Enabled(w, Perform(id, outcome))
    ensures Inv(Apply(w, Perform(id, outcome)))
  {
    var w' := Apply(w, Perform(id, outcome));
    var c := w.calls[id];
    forall l | l in w'.landings ensures Remembered(w', l) {
      if l in w.landings {
        StillRemembered(w, w', l, id);
      } else {
        assert w'.calls[id].phase == Recording(Landed(l.text));
      }
    }
  }

  lemma RecordKeeps(w: World, id: CallId)
    requires Inv(w) && Enabled(w, Record(id))
    ensures Inv(Apply(w, Record(id)))
  {
    var w' := Apply(w, Record(id));
    var c := w.calls[id];
    assert Holds(w, c);
    forall j | j in w'.calls && Active(w'.calls[j]) ensures Holds(w', w'.calls[j]) {
      assert j != id && Holds(w, w.calls[j]);
    }
    forall l | l in w'.landings ensures Remembered(w', l) {
      assert Remembered(w, l);
      if j :| j in w.calls && w.calls[j].phase == Recording(Landed(l.text)) && w.calls[j].key == l.key && w.calls[j].now == l.at {
        if j != id { assert w'.calls[j] == w.calls[j]; }
      }
    }
  }

  lemma StepKeeps(w: World, s: Step)
    requires Inv(w) && Orderly(w, s)
    ensures Inv(Apply(w, s))
  {
    var w' := Apply(w, s);
    match s
    case Tick(to) => TickKeeps(w, to);
    case Begin(id, k) => QuietKeeps(w, w', id);
    case Prune(id) => PruneKeeps(w, id);
    case Claim(id) => if Enters(w, s) { ClaimKeeps(w, id); } else { QuietKeeps(w, w', id); }
    case Read(id) => QuietKeeps(w, w', id);
    case Reclaim(id) => ClaimKeeps(w, id);
    case Perform(id, outcome) => PerformKeeps(w, id, outcome);
    case Record(id) => RecordKeeps(w, id);
    case LoseRecord(id) => QuietKeeps(w, w', id);
    case Kill(id) => QuietKeeps(w, w', id);
  }

  ghost predicate OrderlyRun(ws: seq<World>, ss: seq<Step>) {
    Run(ws, ss) && forall i :: 0 <= i < |ss| ==> Orderly(ws[i], ss[i])
  }

  lemma {:induction false} OrderlyRunKeeps(ws: seq<World>, ss: seq<Step>)
    requires OrderlyRun(ws, ss)
    ensures Inv(ws[|ss|])
    decreases |ss|
  {
    if |ss| > 0 {
      var n := |ss| - 1;
      forall i | 0 <= i < n ensures StepAt(ws[..|ss|], ss[..n], i) && Orderly(ws[..|ss|][i], ss[..n][i]) {
        assert StepAt(ws, ss, i) && Orderly(ws[i], ss[i]);
      }
      OrderlyRunKeeps(ws[..|ss|], ss[..n]);
      assert StepAt(ws, ss, n) && Orderly(ws[n], ss[n]);
      StepKeeps(ws[n], ss[n]);
    }
  }

  /** AT MOST ONCE. In every orderly interleaving no two handlers on one key overlap, and
      a handler never starts within the window of a write that landed on its key. */
  lemma AtMostOnce(ws: seq<World>, ss: seq<Step>, i: nat)
    requires OrderlyRun(ws, ss) && i < |ss|
    ensures OneAtATime(ws[i + 1])
    ensures Enabled(ws[i], ss[i])
    ensures Enters(ws[i], ss[i]) ==>
      forall l :: l in ws[i].landings && l.key == ws[i].calls[ss[i].id].key ==> ws[i].clock > l.at + DONE_TTL_MS
  {
    RunPrefix(ws, ss, i);
    OrderlyRunKeeps(ws[..i + 1], ss[..i]);
    assert StepAt(ws, ss, i) && Orderly(ws[i], ss[i]);
    StepKeeps(ws[i], ss[i]);
    if Enters(ws[i], ss[i]) {
      var c := ws[i].calls[ss[i].id];
      ClaimFindsNobody(ws[i], c.key, c.now);
    }
  }

  lemma RunPrefix(ws: seq<World>, ss: seq<Step>, n: nat)
    requires OrderlyRun(ws, ss) && n <= |ss|
    ensures OrderlyRun(ws[..n + 1], ss[..n])
  {
    forall i | 0 <= i < n ensures StepAt(ws[..n + 1], ss[..n], i) && Orderly(ws[..n + 1][i], ss[..n][i]) {
      assert StepAt(ws, ss, i) && Orderly(ws[i], ss[i]);
    }
  }

  // ---------- what the unread second claim costs ----------

  function Steps(w: World, ss: seq<Step>): Option<World>
    decreases |ss|
  {
    if ss == [] then Some(w)
    else if !Enabled(w, ss[0]) then None
    else Steps(Apply(w, ss[0]), ss[1..])
  }

  /** A second claim that loses is followed by a handler all the same. It is the only
      step by which a handler starts while its key's row is not its own. */
  lemma OnlyReclaimTrespasses(w: World, s: Step)
    requires Enabled(w, s) && Enters(w, s)
    ensures var w' := Apply(w, s);
      w'.calls[s.id].phase.Performing? &&
      (Holds(w', w'.calls[s.id]) <==>
        Claimable(w.rows, w.calls[s.id].key, w.calls[s.id].now)
        || Lookup(w.rows, w.calls[s.id].key) == Some(Attempt(InFlight, w.calls[s.id].now, None, None)))
  {
  }

  /** A handler started by this call overlaps no other on its key and repeats no landing inside its
      window. */
  predicate HarmsNobody(w: World, id: CallId)
    requires id in w.calls
  {
    var k := w.calls[id].key;
    && (forall j :: j in w.calls && j != id && w.calls[j].key == k ==> !Active(w.calls[j]))
    && (forall l :: l in w.landings && l.key == k ==> w.clock > l.at + DONE_TTL_MS)
  }

  /** The row a second claim meets stands for nobody: there is none, it can be claimed, the call that
      claimed it performs no more, or the window of what it records has passed. */
  predicate StandsForNobody(w: World, k: Key, now: int) {
    || Claimable(w.rows, k, now)
    || (w.rows[k].state.InFlight?
        && forall j :: j in w.calls && w.calls[j].key == k && w.calls[j].now == w.rows[k].startedAt ==> !Active(w.calls[j]))
    || (w.rows[k].state.Done? && w.clock > FinishedAt(w.rows[k]) + DONE_TTL_MS)
  }

  /** WHAT A SECOND CLAIM COSTS, won or lost: the handler it starts overlaps nobody and repeats nothing
      if and only if the row it meets stands for nobody. */
  lemma SecondClaimHarmlessIff(w: World, id: CallId)
    requires Inv(w) && Honest(w) && Enabled(w, Reclaim(id))
    ensures HarmsNobody(Apply(w, Reclaim(id)), id) <==> StandsForNobody(w, w.calls[id].key, w.calls[id].now)
  {
    var w' := Apply(w, Reclaim(id));
    var c := w.calls[id];
    var k := c.key;
    if Claimable(w.rows, k, c.now) {
      ClaimFindsNobody(w, k, c.now);
    } else {
      MetRow(w, k);
      if w.rows[k].state.Done? { assert HoldsLanding(w, k); }
      assert forall j :: j in w.calls && j != id ==> w'.calls[j] == w.calls[j];
    }
  }

  /** Who may still be served by a row: the one call that holds it, or what it records. */
  lemma MetRow(w: World, k: Key)
    requires Inv(w) && k in w.rows
    ensures forall j :: j in w.calls && w.calls[j].key == k && Active(w.calls[j]) ==>
      w.rows[k].state.InFlight? && w.calls[j].now == w.rows[k].startedAt
    ensures forall l :: l in w.landings && l.key == k && w.clock <= l.at + DONE_TTL_MS ==>
      if w.rows[k].state.Done? then FinishedAt(w.rows[k]) >= l.at
      else exists j :: j in w.calls && w.calls[j].key == k && Active(w.calls[j])
  {
    forall j | j in w.calls && w.calls[j].key == k && Active(w.calls[j])
      ensures w.rows[k].state.InFlight? && w.calls[j].now == w.rows[k].startedAt
    {
      assert Holds(w, w.calls[j]);
    }
    forall l | l in w.landings && l.key == k && w.clock <= l.at + DONE_TTL_MS
      ensures if w.rows[k].state.Done? then FinishedAt(w.rows[k]) >= l.at
        else exists j :: j in w.calls && w.calls[j].key == k && Active(w.calls[j])
    {
      assert Remembered(w, l);
    }
  }

  lemma {:induction false} StepsAppend(w: World, a: seq<Step>, b: seq<Step>)
    requires Steps(w, a).Some?
    ensures Steps(w, a + b) == Steps(Steps(w, a).value, b)
    decreases |a|
  {
    if a == [] {
      assert a + b == b;
    } else {
      assert (a + b)[1..] == a[1..] + b;
      StepsAppend(Apply(w, a[0]), a[1..], b);
    }
  }

  lemma Steps2(w: World, a: Step, b: Step)
    requires Enabled(w, a) && Enabled(Apply(w, a), b)
    ensures Steps(w, [a, b]) == Some(Apply(Apply(w, a), b))
  {
    assert [a, b][1..] == [b] && [b][1..] == [];
    assert Steps(Apply(w, a), [b]) == Steps(Apply(Apply(w, a), b), []);
  }

  function Opening(id: CallId, k: Key): seq<Step> {
    [Begin(id, k), Prune(id)] + [Claim(id)]
  }

  /** A call begins, prunes and claims, at time 0, on a key whose row, if any, is live. */
  lemma Opens(w: World, id: CallId, k: Key)
    requires w.clock == 0 && id !in w.calls
    requires w.rows == map[] || w.rows == map[k := Attempt(InFlight, 0, None, None)]
    ensures Steps(w, Opening(id, k))
         == Some(World(0, map[k := Attempt(InFlight, 0, None, None)],
              w.calls[id := Call(k, 0, if w.rows == map[] then Performing else Reading)], w.landings))
  {
    hide Steps;
    var w2 := Apply(Apply(w, Begin(id, k)), Prune(id));
    assert w2.rows == w.rows;
    Steps2(w, Begin(id, k), Prune(id));
    StepsAppend(w, [Begin(id, k), Prune(id)], [Claim(id)]);
    Steps1(w2, Claim(id));
    var w3 := Apply(w2, Claim(id));
    var phase := if w.rows == map[] then Performing else Reading;
    assert w.rows != map[] ==> k in w.rows;
    assert w3.calls[id].phase == phase;
    assert w3.calls == w.calls[id := Call(k, 0, phase)];
    assert w3.rows == map[k := Attempt(InFlight, 0, None, None)];
  }

  lemma Steps1(w: World, a: Step)
    requires Enabled(w, a)
    ensures Steps(w, [a]) == Some(Apply(w, a))
  {
    assert [a][1..] == [];
  }

  /** The rest of the race: the owner is refused and releases, both losers read an empty
      row, and both claim again. */
  function Race(): seq<Step> {
    [Perform(0, Refused("exists")), Record(0)] + ([Read(1), Read(2)] + [Reclaim(1), Reclaim(2)])
  }

  /** Two retries that lose to a call which is then refused both perform, although every
      step of the run is timely and no statement fails. */
  lemma RefusalRace(k: Key)
    ensures var run := Steps(World(0, map[], map[], {}),
        Opening(0, k) + (Opening(1, k) + (Opening(2, k) + Race())));
      run.Some? && !OneAtATime(run.value)
  {
    hide Steps;
    var a := Attempt(InFlight, 0, None, None);
    var w0 := World(0, map[], map[], {});
    Opens(w0, 0, k);
    var w1 := Steps(w0, Opening(0, k)).value;
    Opens(w1, 1, k);
    var w2 := Steps(w1, Opening(1, k)).value;
    assert k in w1.rows && k in w2.rows;
    Opens(w2, 2, k);
    var w3 := Steps(w2, Opening(2, k)).value;
    RaceEnds(w3, k);
    StepsAppend(w0, Opening(0, k), Opening(1, k) + (Opening(2, k) + Race()));
    StepsAppend(w1, Opening(1, k), Opening(2, k) + Race());
    StepsAppend(w2, Opening(2, k), Race());
  }

  lemma RaceEnds(w: World, k: Key)
    requires w.rows == map[k := Attempt(InFlight, 0, None, None)] && w.clock == 0
    requires 0 in w.calls && w.calls[0] == Call(k, 0, Performing)
    requires 1 in w.calls && w.calls[1] == Call(k, 0, Reading)
    requires 2 in w.calls && w.calls[2] == Call(k, 0, Reading)
    ensures Steps(w, Race()).Some? && !OneAtATime(Steps(w, Race()).value)
  {
    hide Steps;
    var u := Apply(Apply(w, Perform(0, Refused("exists"))), Record(0));
    assert u.rows == map[];
    Steps2(w, Perform(0, Refused("exists")), Record(0));
    var v := Apply(Apply(u, Read(1)), Read(2));
    Steps2(u, Read(1), Read(2));
    var z := Apply(Apply(v, Reclaim(1)), Reclaim(2));
    Steps2(v, Reclaim(1), Reclaim(2));
    StepsAppend(w, [Perform(0, Refused("exists")), Record(0)], [Read(1), Read(2)] + [Reclaim(1), Reclaim(2)]);
    StepsAppend(u, [Read(1), Read(2)], [Reclaim(1), Reclaim(2)]);
    assert Active(z.calls[1]) && Active(z.calls[2]);
  }

  // ---------- one caller, as statements ----------

  /** What a call that performs does after its claims. */
  function Finish(id: CallId, outcome: Outcome, bookkeepingFails: bool): seq<Step> {
    [Perform(id, outcome), if bookkeepingFails then LoseRecord(id) else Record(id)]
  }

  /** The statements of one call, as its course has it. */
  function CallSteps(id: CallId, k: Key, course: Course, claims: bool, outcome: Outcome, bookkeepingFails: bool): seq<Step> {
    Opening(id, k)
    + (if claims then Finish(id, outcome, bookkeepingFails)
       else if course.Repeats? || course.Waits? then [Read(id)]
       else [Read(id), Reclaim(id)] + Finish(id, outcome, bookkeepingFails))
  }

  /** The first three statements of a call. */
  lemma OpensAnywhere(w: World, id: CallId, k: Key)
    requires id !in w.calls
    ensures var r := Pruned(w.rows, w.clock);
      Steps(w, Opening(id, k)) == Some(World(w.clock, Claimed(r, k, w.clock),
        w.calls[id := Call(k, w.clock, if Claimable(r, k, w.clock) then Performing else Reading)], w.landings))
  {
    hide Steps, Claimable, Claimed, Pruned;
    var w1 := Apply(w, Begin(id, k));
    var w2 := Apply(w1, Prune(id));
    Steps2(w, Begin(id, k), Prune(id));
    StepsAppend(w, [Begin(id, k), Prune(id)], [Claim(id)]);
    Steps1(w2, Claim(id));
    var w3 := Apply(w2, Claim(id));
    var phase := if Claimable(w2.rows, k, w.clock) then Performing else Reading;
    assert w3.calls == w.calls[id := Call(k, w.clock, phase)];
  }

  /** The last two of a call that performs. */
  lemma Finishes(w: World, id: CallId, k: Key, outcome: Outcome, bookkeepingFails: bool)
    requires id in w.calls && w.calls[id] == Call(k, w.calls[id].now, Performing)
    ensures var now := w.calls[id].now;
      Steps(w, Finish(id, outcome, bookkeepingFails)) == Some(World(w.clock,
        if bookkeepingFails then w.rows
        else if outcome.Landed? then Completed(w.rows, k, now, outcome.text) else Released(w.rows, k),
        w.calls[id := Call(k, now, Ended(Answer(outcome)))],
        if outcome.Landed? then w.landings + {Landing(k, now, outcome.text)} else w.landings))
  {
    hide Steps;
    var record := if bookkeepingFails then LoseRecord(id) else Record(id);
    var w1 := Apply(w, Perform(id, outcome));
    Steps2(w, Perform(id, outcome), record);
    assert Apply(w1, record).calls == w.calls[id := Call(k, w.calls[id].now, Ended(Answer(outcome)))];
  }

  /** ONE CALL IS A RUN of the statements: dedupeWrite by itself, as a function on the rows, is what
      its statements do one after the other in a world where nobody else moves. */
  lemma CallIsARun(w: World, id: CallId, k: Key, outcome: Outcome, bookkeepingFails: bool)
    requires id !in w.calls
    ensures var course, performs := CourseOf(w.rows, k, w.clock), Performs(w.rows, k, w.clock);
      var claims := Claimable(Pruned(w.rows, w.clock), k, w.clock);
      Steps(w, CallSteps(id, k, course, claims, outcome, bookkeepingFails)) == Some(World(w.clock,
        AfterCall(w.rows, k, w.clock, outcome, bookkeepingFails),
        w.calls[id := Call(k, w.clock, Ended(ReplyOf(course, outcome)))],
        if performs && outcome.Landed? then w.landings + {Landing(k, w.clock, outcome.text)} else w.landings))
  {
    hide Steps, Claimable, Claimed, Pruned, Completed, Released, Opening, Finish;
    var now, r := w.clock, Pruned(w.rows, w.clock);
    var claims := Claimable(r, k, now);
    OpensAnywhere(w, id, k);
    var w1 := Steps(w, Opening(id, k)).value;
    if claims {
      StepsAppend(w, Opening(id, k), Finish(id, outcome, bookkeepingFails));
      Finishes(w1, id, k, outcome, bookkeepingFails);
      assert w1.calls[id := Call(k, now, Ended(Answer(outcome)))] == w.calls[id := Call(k, now, Ended(Answer(outcome)))];
    } else {
      LostClaim(r, k, now);
      var w2 := Apply(w1, Read(id));
      if Decide(Lookup(r, k), now).Proceed? {
        var w3 := Apply(w2, Reclaim(id));
        Steps2(w1, Read(id), Reclaim(id));
        StepsAppend(w, Opening(id, k), [Read(id), Reclaim(id)] + Finish(id, outcome, bookkeepingFails));
        StepsAppend(w1, [Read(id), Reclaim(id)], Finish(id, outcome, bookkeepingFails));
        assert w3 == World(now, r, w.calls[id := Call(k, now, Performing)], w.landings);
        Finishes(w3, id, k, outcome, bookkeepingFails);
        assert w3.calls[id := Call(k, now, Ended(Answer(outcome)))] == w.calls[id := Call(k, now, Ended(Answer(outcome)))];
      } else {
        StepsAppend(w, Opening(id, k), [Read(id)]);
        Steps1(w1, Read(id));
        assert w2.calls == w.calls[id := Call(k, now, w2.calls[id].phase)];
      }
    }
  }

  lemma LostClaim(rows: Rows, k: Key, now: int)
    ensures !Claimable(rows, k, now) ==> Claimed(rows, k, now) == rows
  {
  }
}
