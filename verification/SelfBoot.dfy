/** What the app shows before the host delivers anything (app/main.tsx, app/core/actions.ts). */
module SelfBoot {
  // From the handshake on an MCP host, with openBrowse. Times are in milliseconds.


  const SELF_BOOT_MS: nat := 1200
  const SELF_BOOT_MAX_MS: nat := 30_000

  /** A view is an object: its id stands for which one. A tree is the file tree. */
  datatype View = Loading(id: nat) | Shown(id: nat) | Tree(id: nat)

  /** The file list the app holds: none, or one read lately or not. */
  datatype Cache = NoList | Lately | Stale

  /** The view on screen, whether a result is announced, how long the boot has waited and
      whether its timer is set; the tree loads it started and the trees it is refreshing, the
      file list at hand, and the next unused id. */
  datatype State = State(view: View, resultPending: bool, waited: nat, timer: bool,
                         trees: set<nat>, refreshes: set<nat>, cache: Cache, next: nat)

  datatype Event =
    | Announced
    | Cancelled
    /** A result is delivered and shown. */
    | Delivered
    /** Something other than the boot starts loading: a result that fetches, or the reader. */
    | StartsLoading
    /** A load that is not the boot's comes back. */
    | Loaded(id: nat)
    | Tick
    /** The boot's tree comes back, or fails to. */
    | TreeArrives(id: nat, ok: bool)
    /** A tree drawn from the list at hand is read again, or that fails. */
    | Refreshed(id: nat, ok: bool)
    /** The list at hand is read, ages or is dropped, by whatever the app does. */
    | CacheIs(cache: Cache)

  predicate Enabled(s: State, e: Event) {
    match e
    case Tick => s.timer
    case TreeArrives(id, _) => id in s.trees
    case Refreshed(id, _) => id in s.refreshes
    case Loaded(id) => id !in s.trees
    case _ => true
  }

  datatype Kind = AsLoading | AsShown | AsTree

  function ViewOf(k: Kind, id: nat): View {
    match k
    case AsLoading => Loading(id)
    case AsShown => Shown(id)
    case AsTree => Tree(id)
  }

  /** Showing a new view. */
  function Show(s: State, k: Kind): State {
    s.(view := ViewOf(k, s.next), next := s.next + 1)
  }

  /** A load's answer is shown only while its own loading view is. */
  function Answer(s: State, id: nat, k: Kind): State {
    if s.view == Loading(id) then Show(s, k) else s
  }

  /** openBrowse: with a list at hand the tree at once, read again if the list is not recent;
      otherwise a loading view and the load. */
  function Browse(s: State): State {
    match s.cache
    case NoList => Show(s.(trees := s.trees + {s.next}), AsLoading)
    case Lately => Show(s, AsTree)
    case Stale => Show(s.(refreshes := s.refreshes + {s.next}), AsTree)
  }

  function Ticked(s: State): State {
    var t := s.(timer := false);
    if !s.view.Loading? then t
    else
      var w := s.waited + SELF_BOOT_MS;
      if s.resultPending && w < SELF_BOOT_MAX_MS then s.(waited := w)
      else Browse(t.(waited := w))
  }

  function Apply(s: State, e: Event): State
    requires Enabled(s, e)
  {
    match e
    case Announced => s.(resultPending := true)
    case Cancelled => s.(resultPending := false)
    case Delivered => Show(s, AsShown)
    case StartsLoading => Show(s, AsLoading)
    case Loaded(id) => Answer(s, id, AsShown)
    case Tick => Ticked(s)
    case TreeArrives(id, ok) => Answer(s, id, if ok then AsTree else AsShown)
    case Refreshed(id, ok) => if ok && s.view == Tree(id) then Show(s, AsTree) else s
    case CacheIs(c) => s.(cache := c)
  }

  /** After the handshake: the connecting view, the timer set; a call may be announced already. */
  predicate Starts(s: State) {
    s.view == Loading(0) && s.waited == 0 && s.timer && s.trees == {} && s.refreshes == {} && s.next == 1
  }

  ghost predicate RunOf(ss: seq<State>, es: seq<Event>) {
    |ss| == |es| + 1 && Starts(ss[0]) && forall i :: 0 <= i < |es| ==> StepAt(ss, es, i)
  }

  ghost predicate StepAt(ss: seq<State>, es: seq<Event>, i: nat)
    requires i < |es| && |ss| == |es| + 1
  {
    Enabled(ss[i], es[i]) && ss[i + 1] == Apply(ss[i], es[i])
  }

  /** The module's variables, changed by the host's events and the timer. */
  class App {
    var view: View
    var resultPending: bool
    var waited: nat
    var timer: bool
    var trees: set<nat>
    var refreshes: set<nat>
    var cache: Cache
    var next: nat

    function Now(): State
      reads this
    {
      State(view, resultPending, waited, timer, trees, refreshes, cache, next)
    }

    constructor (pending: bool, atHand: Cache)
      ensures Starts(Now()) && Now().resultPending == pending && Now().cache == atHand
    {
      view, resultPending, waited, timer, next := Loading(0), pending, 0, true, 1;
      trees, refreshes, cache := {}, {}, atHand;
    }

    method ShowView(k: Kind)
      modifies this`view, this`next
      ensures Now() == Show(old(Now()), k)
    {
      view := ViewOf(k, next);
      next := next + 1;
    }

    method OpenBrowse()
      modifies this
      ensures Now() == Browse(old(Now()))
    {
      if cache != NoList {
        if cache == Stale { refreshes := refreshes + {next}; }
        ShowView(AsTree);
        return;
      }
      trees := trees + {next};
      ShowView(AsLoading);
    }

    method OnResultComing()
      modifies this
      ensures Now() == Apply(old(Now()), Announced)
    {
      resultPending := true;
    }

    method OnResultCancelled()
      modifies this
      ensures Now() == Apply(old(Now()), Cancelled)
    {
      resultPending := false;
    }

    /** selfBoot. */
    method Boot()
      requires timer
      modifies this
      ensures Now() == Apply(old(Now()), Tick)
    {
      timer := false;
      if !view.Loading? {
        return;
      }
      waited := waited + SELF_BOOT_MS;
      if resultPending && waited < SELF_BOOT_MAX_MS {
        timer := true;
        return;
      }
      OpenBrowse();
    }

    /** openBrowse when its fetch comes back or fails. */
    method OnTree(id: nat, ok: bool)
      requires id in trees
      modifies this
      ensures Now() == Apply(old(Now()), TreeArrives(id, ok))
    {
      if view == Loading(id) {
        ShowView(if ok then AsTree else AsShown);
      }
    }

    /** revalidateBrowse when its fetch comes back. */
    method OnRefreshed(id: nat)
      requires id in refreshes
      modifies this
      ensures Now() == Apply(old(Now()), Refreshed(id, true))
    {
      if view == Tree(id) {
        ShowView(AsTree);
      }
    }
  }

  // ---------- over whole runs ----------

  function Ticks(es: seq<Event>, n: nat): nat
    requires n <= |es|
  {
    if n == 0 then 0 else Ticks(es, n - 1) + (if es[n - 1].Tick? then 1 else 0)
  }

  predicate Inv(s: State, ticks: nat) {
    && (forall id :: id in s.trees ==> 0 < id < s.next)
    && (forall id :: id in s.refreshes ==> 0 < id < s.next)
    && s.view.id < s.next
    && s.waited <= SELF_BOOT_MS * ticks
    && (s.view == Loading(0) ==> s.timer && s.waited == SELF_BOOT_MS * ticks && s.waited < SELF_BOOT_MAX_MS)
    && (s.timer ==> s.waited == SELF_BOOT_MS * ticks && s.waited < SELF_BOOT_MAX_MS)
    && (!s.timer ==> s.view != Loading(0))
  }

  lemma {:induction false} RunKeepsInv(ss: seq<State>, es: seq<Event>, i: nat)
    requires RunOf(ss, es) && i < |ss|
    ensures Inv(ss[i], Ticks(es, i))
  {
    if i > 0 {
      RunKeepsInv(ss, es, i - 1);
      assert StepAt(ss, es, i - 1);
    }
  }

  /** THE WAIT IS BOUNDED. Whatever is announced, cancelled and delivered, the connecting view is
      gone by the 25th tick, 30 seconds in, and by the next tick whenever no call is pending;
      until then the timer stays set. */
  lemma WaitIsBounded(ss: seq<State>, es: seq<Event>, i: nat)
    requires RunOf(ss, es) && i < |ss|
    ensures ss[i].view == Loading(0) ==> Ticks(es, i) < 25 && ss[i].timer
    ensures i < |es| && es[i].Tick? && !ss[i].resultPending ==> ss[i + 1].view != Loading(0)
    ensures i < |es| && es[i].Tick? && Ticks(es, i) == 24 ==> ss[i + 1].view != Loading(0) && !ss[i + 1].timer
  {
    RunKeepsInv(ss, es, i);
    if i < |es| {
      assert StepAt(ss, es, i);
      RunKeepsInv(ss, es, i + 1);
    }
  }

  /** The events that are the boot's own, or only say what the host or the cache is doing. */
  predicate IsBoots(e: Event) {
    e.Tick? || e.TreeArrives? || e.Refreshed? || e.Announced? || e.Cancelled? || e.CacheIs?
  }

  /** A LANDED VIEW STAYS. Once a view is shown, neither the boot's timer nor its tree, however
      late, replaces it: only a result, or a load that was not the boot's, does. A tree may be
      redrawn by its own refresh, and by nothing else of the boot's. */
  lemma {:induction false} LandedStays(ss: seq<State>, es: seq<Event>, i: nat, n: nat)
    requires RunOf(ss, es) && i + n < |ss| && !ss[i].view.Loading?
    requires forall j :: i <= j < i + n ==> IsBoots(es[j])
    ensures ss[i].view.Shown? ==> ss[i + n].view == ss[i].view
    ensures ss[i].view.Tree? ==> ss[i + n].view.Tree?
    ensures ss[i].view.Tree? && (forall j, ok :: i <= j < i + n ==> es[j] != Refreshed(ss[i].view.id, ok)) ==>
      ss[i + n].view == ss[i].view
  {
    if n > 0 {
      LandedStays(ss, es, i, n - 1);
      assert StepAt(ss, es, i + n - 1);
    }
  }

  /** WHEN THE BOOT TAKES OVER. A tick replaces the view if and only if a loading view is on
      screen, whoever started it, and no call is pending or the wait is used up: by the tree
      itself when a file list is at hand, else by a load of it. So a load the reader or a
      result began before the tick is replaced too, and its answer is dropped. */
  lemma TickReplacesIff(ss: seq<State>, es: seq<Event>, i: nat, own: nat)
    requires RunOf(ss, es) && i < |es| && es[i] == Tick
    ensures ss[i + 1].view != ss[i].view <==>
      ss[i].view.Loading? && (!ss[i].resultPending || Ticks(es, i) >= 24)
    ensures ss[i + 1].view != ss[i].view ==> (ss[i + 1].view.Tree? <==> ss[i].cache != NoList)
    ensures ss[i].view == Loading(own) && ss[i + 1].view != ss[i].view && own !in ss[i + 1].trees ==>
      Apply(ss[i + 1], Loaded(own)) == ss[i + 1]
  {
    RunKeepsInv(ss, es, i);
    assert StepAt(ss, es, i);
  }
}
