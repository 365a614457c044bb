/** What one edit of a batch does: when a border-free anchor is accepted, and what is kept. */
module EditBatches {
  import opened Options
  import opened PageEdits

  // ---------- exactly once ----------

  predicate LiveAt(body: string, find: string, i: nat) {
    OccursAt(body, find, i) && Live(body, i, |find|)
  }

  /** The anchor occurs once outside the snapshots. */
  ghost predicate OnceLive(body: string, find: string) {
    exists i :: LiveAt(body, find, i) && forall j :: LiveAt(body, find, j) ==> j == i
  }

  /** No proper end of the text is also its beginning, so two occurrences never overlap. */
  predicate BorderFree(n: string) {
    forall k :: 0 < k < |n| ==> n[k..] != n[..|n| - k]
  }

  lemma OverlapIsBorder(h: string, n: string, i: nat, j: nat)
    requires OccursAt(h, n, i) && OccursAt(h, n, j) && i < j < i + |n|
    ensures n[j - i..] == n[..|n| - (j - i)]
  {
    var k := j - i;
    assert n[k..] == h[j..i + |n|];
    assert n[..|n| - k] == h[j..j + |n|][..|n| - k] == h[j..i + |n|];
  }

  /** With such an anchor the hits are all the occurrences there are. */
  lemma {:induction false} HitsAreAll(h: string, n: string, from: nat, at: nat)
    requires n != "" && BorderFree(n) && from <= at && OccursAt(h, n, at)
    ensures at in Hits(h, n, from)
    decreases |h| - from
  {
    var i := IndexOf(h, n, from);
    if i.Some? && i.value < at {
      if at < i.value + |n| { OverlapIsBorder(h, n, i.value, at); }
      hide OccursAt;
      HitsAreAll(h, n, i.value + |n|, at);
    }
  }

  predicate Rising(hs: seq<nat>) {
    forall i, j :: 0 <= i < j < |hs| ==> hs[i] < hs[j]
  }

  lemma TwoMembers(hs: seq<nat>, i: nat)
    requires Rising(hs) && |hs| > 1
    ensures exists k :: k in hs && k != i
  {
    if hs[0] == i { assert hs[1] in hs; } else { assert hs[0] in hs; }
  }

  lemma RisingCons(i: nat, rest: seq<nat>)
    requires Rising(rest) && forall k :: k in rest ==> i < k
    ensures Rising([i] + rest)
  {
    var all := [i] + rest;
    forall j, k | 0 <= j < k < |all| ensures all[j] < all[k] {
      assert rest[k - 1] in rest && all[k] == rest[k - 1];
      if j > 0 { assert all[j] == rest[j - 1]; }
    }
  }

  lemma {:induction false} HitsIncrease(h: string, n: string, from: nat)
    requires n != ""
    ensures Rising(Hits(h, n, from))
    decreases |h| - from
  {
    hide IndexOf, OccursAt, Hits, Rising;
    IndexInside(h, n, from);
    HitsUnfold(h, n, from);
    var i := IndexOf(h, n, from);
    if i.Some? {
      HitsIncrease(h, n, i.value + |n|);
      HitsOccur(h, n, i.value + |n|);
      RisingCons(i.value, Hits(h, n, i.value + |n|));
    } else {
      RisingNone();
    }
  }

  lemma HitsUnfold(h: string, n: string, from: nat)
    requires n != ""
    ensures var i := IndexOf(h, n, from);
      Hits(h, n, from) == if i.None? then [] else [i.value] + Hits(h, n, i.value + |n|)
  {
    hide IndexOf;
  }

  lemma RisingNone()
    ensures Rising([])
  {
  }

  lemma {:induction false} OnlyLiveIncreases(body: string, n: nat, hits: seq<nat>)
    requires Rising(hits)
    ensures Rising(OnlyLive(body, n, hits))
    decreases |hits|
  {
    hide Live;
    if hits != [] {
      var init, last := hits[..|hits| - 1], hits[|hits| - 1];
      OnlyLiveIncreases(body, n, init);
      OnlyLiveMembers(body, n, init);
      var ls := OnlyLive(body, n, init);
      forall k | 0 <= k < |ls| ensures ls[k] < last {
        assert ls[k] in init;
      }
    }
  }

  function LiveHits(body: string, find: string): seq<nat>
    requires find != ""
  {
    OnlyLive(body, |find|, Hits(body, find, 0))
  }

  lemma LiveHitsAre(body: string, find: string)
    requires find != ""
    ensures Rising(LiveHits(body, find))
    ensures forall at :: at in LiveHits(body, find) ==> LiveAt(body, find, at)
    ensures BorderFree(find) ==> forall at :: LiveAt(body, find, at) ==> at in LiveHits(body, find)
  {
    hide Live, OccursAt, Hits, BorderFree;
    HitsIncrease(body, find, 0);
    OnlyLiveIncreases(body, |find|, Hits(body, find, 0));
    OnlyLiveMembers(body, |find|, Hits(body, find, 0));
    HitsOccur(body, find, 0);
    if BorderFree(find) {
      forall at | LiveAt(body, find, at) ensures at in LiveHits(body, find) {
        HitsAreAll(body, find, 0, at);
      }
    }
  }

  lemma EditOkIff(body: string, e: Edit)
    ensures EditOnce(body, e).Ok? <==> e.find != "" && |LiveHits(body, e.find)| == 1
    ensures EditOnce(body, e).Ok? ==> EditOnce(body, e).body == Replaced2(body, LiveHits(body, e.find)[0], e)
  {
    hide Hits, Live, OnlyLive;
    if e.find != "" {
      NoHitsNoLive(body, |e.find|);
      LiveHitsAre(body, e.find);
      assert |LiveHits(body, e.find)| > 0 ==> LiveHits(body, e.find)[0] in LiveHits(body, e.find);
    }
  }

  lemma NoHitsNoLive(body: string, n: nat)
    ensures OnlyLive(body, n, []) == []
  {
  }

  function Replaced2(body: string, at: nat, e: Edit): string {
    if at + |e.find| <= |body| then Replaced(body, at, e) else body
  }

  /** EXACTLY ONCE. An edit whose anchor cannot overlap itself is made if and only if the anchor
      occurs exactly once outside the snapshots. */
  lemma BorderFreeEdit(body: string, e: Edit)
    requires e.find != "" && BorderFree(e.find)
    ensures EditOnce(body, e).Ok? <==> OnceLive(body, e.find)
  {
    hide Hits, Live, OnlyLive, OccursAt, BorderFree, LiveHits, LiveAt, EditOnce;
    EditOkIff(body, e);
    LiveHitsAre(body, e.find);
    var ls := LiveHits(body, e.find);
    if |ls| == 1 {
      assert ls[0] in ls;
      assert LiveAt(body, e.find, ls[0]);
    }
    if OnceLive(body, e.find) {
      var i :| LiveAt(body, e.find, i) && forall j :: LiveAt(body, e.find, j) ==> j == i;
      assert i in ls;
      if |ls| > 1 { TwoMembers(ls, i); }
    }
  }

  /** What an edit that is made does: the one live hit is replaced, all other text kept. */
  lemma EditKeepsTheRest(body: string, e: Edit) returns (at: nat)
    requires EditOnce(body, e).Ok?
    ensures at + |e.find| <= |body| && LiveAt(body, e.find, at)
    ensures EditOnce(body, e).body == body[..at] + e.replace + body[at + |e.find|..]
  {
    hide Hits, Live, OnlyLive, OccursAt;
    EditOkIff(body, e);
    LiveHitsAre(body, e.find);
    at := LiveHits(body, e.find)[0];
    assert at in LiveHits(body, e.find);
    OccursInside(body, e.find, at);
  }

  lemma OccursInside(h: string, n: string, i: nat)
    requires OccursAt(h, n, i)
    ensures i + |n| <= |h|
  {
  }

  // ---------- what the rule promises ----------

  /** Every edit made with the anchor is of one that occurs exactly once outside the snapshots. */
  ghost predicate MeansOnce(n: string) {
    forall body, r :: EditOnce(body, Edit(n, r)).Ok? ==> OnceLive(body, n)
  }
}
