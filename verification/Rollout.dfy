/**
 * The controller's side of a fleet update: publishing a release, retracting it, and sweeping it
 * away once every agent that still matters runs it. Every request may succeed, fail, fail after
 * it took effect, or be the last thing the controller does before it crashes.
 */
module Rollout {
  import opened Base
  import opened Protocol

  datatype SeenAgent = SeenAgent(lastSeen: int, version: Option<string>, binarySha256: Option<string>)

  /** The hash decides when the agent reports one; the version string stands in when it does not. */
  predicate Runs(agent: SeenAgent, m: Manifest) {
    match agent.binarySha256
    case Some(installed) => installed == m.sha256
    case None => agent.version == Some(m.version)
  }

  datatype RolloutRow = RolloutRow(version: string, target: string, sha256: string, publishedAt: int, completedAt: Option<int>)

  /** Every manifest names a release whose chunks 0..chunks are all there. */
  predicate IntactIn(manifests: map<string, Manifest>, chunks: set<(string, nat)>) {
    forall a | a in manifests :: forall i: nat | i < manifests[a].chunks :: (manifests[a].release, i) in chunks
  }

  predicate Names(manifests: map<string, Manifest>, release: string) {
    exists a | a in manifests :: manifests[a].release == release
  }

  /** A holder seen since the cutoff does not run the build its manifest describes. */
  predicate Awaited(seen: map<string, SeenAgent>, cutoff: int, a: string, m: Manifest) {
    a in seen && seen[a].lastSeen >= cutoff && !Runs(seen[a], m)
  }

  predicate Needed(manifests: map<string, Manifest>, seen: map<string, SeenAgent>, cutoff: int, release: string) {
    exists a | a in manifests :: manifests[a].release == release && Awaited(seen, cutoff, a, manifests[a])
  }

  predicate Complete(manifests: map<string, Manifest>, seen: map<string, SeenAgent>, cutoff: int, release: string) {
    Names(manifests, release) && !Needed(manifests, seen, cutoff, release)
  }

  function Holders(manifests: map<string, Manifest>, release: string): (holders: set<string>)
    ensures forall a | a in holders :: a in manifests
  {
    set a | a in manifests && manifests[a].release == release
  }

  /** The agents whose manifest a sweep should remove. */
  function Finished(manifests: map<string, Manifest>, seen: map<string, SeenAgent>, cutoff: int): set<string> {
    set a | a in manifests && Complete(manifests, seen, cutoff, manifests[a].release)
  }

  function Releases(manifests: map<string, Manifest>): set<string> {
    set a | a in manifests :: manifests[a].release
  }

  /** The releases a sweep should remove. */
  function FinishedReleases(manifests: map<string, Manifest>, seen: map<string, SeenAgent>, cutoff: int): set<string> {
    set r | r in Releases(manifests) && Complete(manifests, seen, cutoff, r)
  }

  function Others(chunks: set<(string, nat)>, release: string): set<(string, nat)> {
    set c | c in chunks && c.0 != release
  }

  /** The ledger row of a publish; a completion already recorded for the id stays. */
  function Recorded(rollouts: map<string, RolloutRow>, m: Manifest): (row: RolloutRow)
    ensures row.version == m.version && row.target == m.target && row.sha256 == m.sha256 && row.publishedAt == m.publishedAt
    ensures row.completedAt == if m.release in rollouts then rollouts[m.release].completedAt else None
  {
    RolloutRow(m.version, m.target, m.sha256, m.publishedAt,
               if m.release in rollouts then rollouts[m.release].completedAt else None)
  }

  /** Every manifest is either a delivered copy of `m`, or one from before under another release. */
  ghost predicate Explained(now: map<string, Manifest>, before: map<string, Manifest>, m: Manifest,
                            agents: seq<string>, deliver: string -> Fate) {
    forall a | a in now ::
      (now[a] == m && a in agents && TookEffect(deliver(a)))
      || (a in before && now[a] == before[a] && now[a].release != m.release)
  }

  /** No agent outside the list holds a release some agent inside it holds. */
  ghost predicate Separate(manifests: map<string, Manifest>, agents: set<string>) {
    forall a, b | a in manifests && b in manifests && a in agents && b !in agents ::
      manifests[a].release != manifests[b].release
  }

  /** The releases the manifests of `agents` name. */
  function NamedBy(manifests: map<string, Manifest>, agents: set<string>): set<string> {
    set a | a in manifests && a in agents :: manifests[a].release
  }

  /** Once the manifests of separate agents are gone, nobody names their releases. */
  lemma NamedInsideOnly(manifests: map<string, Manifest>, agents: set<string>, unreadable: set<string>, release: string)
    requires Separate(manifests, agents) && release in NamedBy(manifests, agents - unreadable)
    ensures !Names(manifests - agents, release)
  {
    var a :| a in manifests && a in agents - unreadable && manifests[a].release == release;
  }

  function HoldersOfAny(manifests: map<string, Manifest>, releases: set<string>): set<string> {
    set a | a in manifests && manifests[a].release in releases
  }

  lemma OneMoreRelease(manifests: map<string, Manifest>, releases: set<string>, release: string,
                       seen: map<string, SeenAgent>, cutoff: int)
    requires release !in releases
    ensures HoldersOfAny(manifests, releases + {release}) == HoldersOfAny(manifests, releases) + Holders(manifests, release)
    ensures HoldersOfAny(manifests, releases) !! Holders(manifests, release)
    ensures |HoldersOfAny(manifests, releases + {release})| == |HoldersOfAny(manifests, releases)| + |Holders(manifests, release)|
    ensures Holders(manifests - HoldersOfAny(manifests, releases), release) == Holders(manifests, release)
    ensures release in FinishedReleases(manifests, seen, cutoff) ==> Holders(manifests, release) <= Finished(manifests, seen, cutoff)
  {
  }

  lemma CompleteMeansAllRun(manifests: map<string, Manifest>, holders: set<string>, seen: map<string, SeenAgent>,
                            cutoff: int, release: string)
    requires holders == Holders(manifests, release) && release in Releases(manifests)
    ensures release in FinishedReleases(manifests, seen, cutoff)
       <==> forall a | a in holders :: !Awaited(seen, cutoff, a, manifests[a])
  {
  }

  lemma AllHolders(manifests: map<string, Manifest>, seen: map<string, SeenAgent>, cutoff: int)
    ensures HoldersOfAny(manifests, FinishedReleases(manifests, seen, cutoff)) == Finished(manifests, seen, cutoff)
  {
  }

  /** The ledger with the removed releases marked completed. */
  function Ledger(rollouts: map<string, RolloutRow>, removed: set<string>, now: int): map<string, RolloutRow> {
    map r | r in rollouts :: if r in removed then rollouts[r].(completedAt := Some(now)) else rollouts[r]
  }

  /** Manifests of `agents` may be gone; nothing else changed. */
  ghost predicate LostOf(before: map<string, Manifest>, after: map<string, Manifest>, agents: set<string>) {
    && (forall a | a in after :: a in before && after[a] == before[a])
    && (forall a | a in before && a !in agents :: a in after)
  }

  lemma LostMore(was: map<string, Manifest>, gone: set<string>, after: map<string, Manifest>, holders: set<string>,
                 finished: set<string>)
    requires LostOf(was - gone, after, holders) && gone <= finished
    ensures holders <= finished ==> LostOf(was, after, finished)
  {
  }

  lemma TwoRemovals(was: map<string, Manifest>, gone: set<string>, holders: set<string>)
    ensures was - gone - holders == was - (gone + holders)
  {
  }

  lemma LostSome(was: map<string, Manifest>, gone: set<string>, finished: set<string>)
    requires gone <= finished
    ensures LostOf(was, was - gone, finished)
  {
  }

  /** Only chunks of `releases` are gone. */
  ghost predicate LostOnly(before: set<(string, nat)>, after: set<(string, nat)>, releases: set<string>) {
    after <= before && forall c | c in before && c !in after :: c.0 in releases
  }

  /** What is left of `releases` are chunks whose delete failed. */
  ghost predicate ClearedBut(chunks: set<(string, nat)>, releases: set<string>, deletes: (string, nat) -> Fate) {
    forall c | c in chunks && c.0 in releases :: deletes(c.0, c.1).Fails?
  }

  lemma LostOneMore(first: set<(string, nat)>, before: set<(string, nat)>, after: set<(string, nat)>,
                    release: string, releases: set<string>)
    requires LostOnly(first, before, releases) && release in releases
    requires after <= before && Others(after, release) == Others(before, release)
    ensures LostOnly(first, after, releases)
  {
    assert forall c | c in before && c.0 != release :: c in Others(before, release);
  }

  lemma NothingLostYet(chunks: set<(string, nat)>, releases: set<string>, deletes: (string, nat) -> Fate)
    ensures LostOnly(chunks, chunks, releases) && ClearedBut(chunks, {}, deletes)
  {
  }

  lemma ClearedOneMore(before: set<(string, nat)>, after: set<(string, nat)>, release: string, releases: set<string>,
                       deletes: (string, nat) -> Fate)
    requires after <= before && ClearedBut(before, releases, deletes)
    requires forall i: nat | (release, i) in after :: deletes(release, i).Fails?
    ensures ClearedBut(after, releases + {release}, deletes)
  {
    forall c | c in after && c.0 in releases + {release} ensures deletes(c.0, c.1).Fails? {
      assert c == (c.0, c.1);
    }
  }

  /** Chunks of a release nobody names may come and go. */
  lemma UnnamedChunksDoNotMatter(manifests: map<string, Manifest>, before: set<(string, nat)>, after: set<(string, nat)>,
                                 release: string)
    requires IntactIn(manifests, before) && !Names(manifests, release) && Others(before, release) == Others(after, release)
    ensures IntactIn(manifests, after)
  {
    forall a, i: nat | a in manifests && i < manifests[a].chunks ensures (manifests[a].release, i) in after {
      assert (manifests[a].release, i) in Others(before, release);
    }
  }

  function Completed(rollouts: map<string, RolloutRow>, release: string, now: int): map<string, RolloutRow> {
    if release in rollouts then rollouts[release := rollouts[release].(completedAt := Some(now))] else rollouts
  }

  lemma EmptyLedger(rollouts: map<string, RolloutRow>, now: int)
    ensures Ledger(rollouts, {}, now) == rollouts
  {
  }

  lemma LedgerStep(rollouts: map<string, RolloutRow>, removed: set<string>, release: string, now: int)
    ensures Completed(Ledger(rollouts, removed, now), release, now) == Ledger(rollouts, removed + {release}, now)
  {
  }

  /** What a sweep changes. */
  datatype Books = Books(manifests: map<string, Manifest>, chunks: set<(string, nat)>, rollouts: map<string, RolloutRow>)

  /** What a sweep goes by. */
  datatype Survey = Survey(seen: map<string, SeenAgent>, cutoff: int, now: int, deletes: (string, nat) -> Fate)

  /** A sweep that began at `was` has dealt with all releases but those in `todo`, retiring `removed`. */
  ghost predicate SweptTo(was: Books, at: Books, s: Survey, removed: set<string>, todo: set<string>, count: nat) {
    var finished := FinishedReleases(was.manifests, s.seen, s.cutoff);
    && todo <= Releases(was.manifests) && removed !! todo && removed <= finished <= removed + todo
    && at.manifests == was.manifests - HoldersOfAny(was.manifests, removed)
    && count == |HoldersOfAny(was.manifests, removed)|
    && HoldersOfAny(was.manifests, removed) <= Finished(was.manifests, s.seen, s.cutoff)
    && LostOnly(was.chunks, at.chunks, finished)
    && ClearedBut(at.chunks, removed, s.deletes)
    && at.rollouts == Ledger(was.rollouts, removed, s.now)
  }

  lemma SweepStarts(was: Books, s: Survey)
    ensures SweptTo(was, was, s, {}, Releases(was.manifests), 0)
  {
    assert HoldersOfAny(was.manifests, {}) == {};
    EmptyLedger(was.rollouts, s.now);
  }

  lemma SweepSkips(was: Books, at: Books, s: Survey, removed: set<string>, todo: set<string>, count: nat, release: string)
    requires SweptTo(was, at, s, removed, todo, count) && release in todo
    requires exists a :: a in Holders(at.manifests, release) && Awaited(s.seen, s.cutoff, a, at.manifests[a])
    ensures SweptTo(was, at, s, removed, todo - {release}, count)
  {
    hide LostOnly, ClearedBut, Ledger, Awaited;
    CompleteMeansAllRun(was.manifests, Holders(was.manifests, release), s.seen, s.cutoff, release);
    OneMoreRelease(was.manifests, removed, release, s.seen, s.cutoff);
  }

  /** One release is only partly retired; what is gone belongs to finished releases all the same. */
  lemma SweepCutShort(was: Books, at: Books, after: Books, s: Survey, removed: set<string>, todo: set<string>, count: nat,
                      release: string)
    requires SweptTo(was, at, s, removed, todo, count) && release in todo
    requires forall a | a in Holders(at.manifests, release) :: !Awaited(s.seen, s.cutoff, a, at.manifests[a])
    requires LostOf(at.manifests, after.manifests, Holders(at.manifests, release))
    requires after.chunks <= at.chunks && Others(after.chunks, release) == Others(at.chunks, release)
    ensures release in FinishedReleases(was.manifests, s.seen, s.cutoff)
    ensures LostOf(was.manifests, after.manifests, Finished(was.manifests, s.seen, s.cutoff))
    ensures LostOnly(was.chunks, after.chunks, FinishedReleases(was.manifests, s.seen, s.cutoff))
  {
    hide LostOf, LostOnly, ClearedBut, Ledger, Awaited, Others;
    OneMoreRelease(was.manifests, removed, release, s.seen, s.cutoff);
    CompleteMeansAllRun(was.manifests, Holders(was.manifests, release), s.seen, s.cutoff, release);
    LostMore(was.manifests, HoldersOfAny(was.manifests, removed), after.manifests, Holders(at.manifests, release),
             Finished(was.manifests, s.seen, s.cutoff));
    LostOneMore(was.chunks, at.chunks, after.chunks, release, FinishedReleases(was.manifests, s.seen, s.cutoff));
  }

  lemma SweepRetires(was: Books, at: Books, after: Books, s: Survey, removed: set<string>, todo: set<string>, count: nat,
                     release: string)
    requires SweptTo(was, at, s, removed, todo, count) && release in todo
    requires release in FinishedReleases(was.manifests, s.seen, s.cutoff)
    requires LostOnly(was.chunks, after.chunks, FinishedReleases(was.manifests, s.seen, s.cutoff))
    requires after.manifests == at.manifests - Holders(at.manifests, release) && after.chunks <= at.chunks
    requires forall i: nat | (release, i) in after.chunks :: s.deletes(release, i).Fails?
    requires after.rollouts == Completed(at.rollouts, release, s.now)
    ensures SweptTo(was, after, s, removed + {release}, todo - {release}, count + |Holders(at.manifests, release)|)
  {
    hide LostOf, LostOnly, ClearedBut, Ledger, Completed, Others, Finished, FinishedReleases, Releases, HoldersOfAny, Holders;
    TwoRemovals(was.manifests, HoldersOfAny(was.manifests, removed), Holders(was.manifests, release));
    OneMoreRelease(was.manifests, removed, release, s.seen, s.cutoff);
    ClearedOneMore(at.chunks, after.chunks, release, removed, s.deletes);
    LedgerStep(was.rollouts, removed, release, s.now);
  }

  lemma SweepStops(was: Books, at: Books, s: Survey, removed: set<string>, todo: set<string>, count: nat)
    requires SweptTo(was, at, s, removed, todo, count)
    ensures LostOf(was.manifests, at.manifests, Finished(was.manifests, s.seen, s.cutoff))
    ensures LostOnly(was.chunks, at.chunks, FinishedReleases(was.manifests, s.seen, s.cutoff))
    ensures todo == {} ==>
      && removed == FinishedReleases(was.manifests, s.seen, s.cutoff)
      && at.manifests == was.manifests - Finished(was.manifests, s.seen, s.cutoff)
      && count == |Finished(was.manifests, s.seen, s.cutoff)|
      && ClearedBut(at.chunks, removed, s.deletes)
      && at.rollouts == Ledger(was.rollouts, removed, s.now)
  {
    hide LostOf, LostOnly, ClearedBut, Ledger;
    LostSome(was.manifests, HoldersOfAny(was.manifests, removed), Finished(was.manifests, s.seen, s.cutoff));
    AllHolders(was.manifests, s.seen, s.cutoff);
  }

  /** Some holder of the release, heard of since the cutoff, reports another build than its manifest's. */
  ghost predicate HeldUp(manifests: map<string, Manifest>, seen: map<string, SeenAgent>, cutoff: int, release: string) {
    exists b | b in manifests && b in seen ::
      manifests[b].release == release && seen[b].lastSeen >= cutoff
      && match seen[b].binarySha256
         case Some(hash) => hash != manifests[b].sha256
         case None => seen[b].version != Some(manifests[b].version)
  }

  /**
   * What is gone after a sweep was waited for by nobody: no agent heard of since the cutoff, with a
   * manifest of the same release, reports a hash other than the one in its manifest, or reports no
   * hash and another version. Of a sweep that succeeded the opposite holds of what is left.
   */
  lemma SweptMeans(was: Books, at: Books, s: Survey)
    requires LostOf(was.manifests, at.manifests, Finished(was.manifests, s.seen, s.cutoff))
    requires LostOnly(was.chunks, at.chunks, FinishedReleases(was.manifests, s.seen, s.cutoff))
    ensures forall a | a in at.manifests :: a in was.manifests && at.manifests[a] == was.manifests[a]
    ensures forall a, b | a in was.manifests && a !in at.manifests && b in was.manifests && b in s.seen
              && was.manifests[b].release == was.manifests[a].release && s.seen[b].lastSeen >= s.cutoff ::
              match s.seen[b].binarySha256
              case Some(hash) => hash == was.manifests[b].sha256
              case None => s.seen[b].version == Some(was.manifests[b].version)
    ensures at.chunks <= was.chunks
    ensures forall c | c in was.chunks && c !in at.chunks :: exists a | a in was.manifests :: was.manifests[a].release == c.0
    ensures forall c, b | c in was.chunks && c !in at.chunks && b in was.manifests && b in s.seen
              && was.manifests[b].release == c.0 && s.seen[b].lastSeen >= s.cutoff ::
              match s.seen[b].binarySha256
              case Some(hash) => hash == was.manifests[b].sha256
              case None => s.seen[b].version == Some(was.manifests[b].version)
    ensures at.manifests == was.manifests - Finished(was.manifests, s.seen, s.cutoff) ==>
      forall a | a in at.manifests :: HeldUp(was.manifests, s.seen, s.cutoff, was.manifests[a].release)
  {
  }

  /** What a ledger and a report of removed releases say, in their fields. */
  lemma ReportMeans(was: Books, at: Books, s: Survey, removed: set<string>)
    requires at.manifests == was.manifests - Finished(was.manifests, s.seen, s.cutoff)
    requires removed == FinishedReleases(was.manifests, s.seen, s.cutoff)
    requires at.rollouts == Ledger(was.rollouts, removed, s.now) && ClearedBut(at.chunks, removed, s.deletes)
    ensures forall r :: r in removed <==> exists a | a in was.manifests && a !in at.manifests :: was.manifests[a].release == r
    ensures forall a, i: nat | a in was.manifests && a !in at.manifests && (was.manifests[a].release, i) in at.chunks ::
              s.deletes(was.manifests[a].release, i).Fails?
    ensures at.rollouts.Keys == was.rollouts.Keys
    ensures forall r | r in at.rollouts ::
      at.rollouts[r] == if r in removed then was.rollouts[r].(completedAt := Some(s.now)) else was.rollouts[r]
  {
  }

  /** What a retraction takes from releases and clears of them, in the fields of the manifests. */
  lemma RetractionMeans(manifests: map<string, Manifest>, agents: set<string>, before: set<(string, nat)>, after: set<(string, nat)>,
                        deletes: (string, nat) -> Fate)
    requires LostOnly(before, after, NamedBy(manifests, agents))
    ensures after <= before
    ensures forall c | c in before && c !in after :: exists a | a in agents && a in manifests :: manifests[a].release == c.0
    ensures ClearedBut(after, NamedBy(manifests, agents), deletes) ==>
      forall a, i: nat | a in agents && a in manifests && (manifests[a].release, i) in after :: deletes(manifests[a].release, i).Fails?
  {
  }

  datatype Operation =
    | Publication(m: Manifest, order: seq<nat>, recipients: seq<string>, put: nat -> Fate, deliver: string -> Fate,
                  straggles: nat -> bool, relist: Fate, undo: nat -> Fate, record: Fate)
    | Sweeping(seen: map<string, SeenAgent>, now: int, window: nat, cleanup: bool, unreadable: set<string>,
               unpublish: string -> Fate, list: string -> Fate, deletes: (string, nat) -> Fate, complete: string -> Fate)
    | Retraction(agents: set<string>, alsoRelease: bool, unreadable: set<string>,
                 unpublish: string -> Fate, list: string -> Fate, deletes: (string, nat) -> Fate)

  /** What every operation is given: enrolled agents, and an upload order with every chunk in it. */
  ghost predicate WellFormed(o: Operation, enrolled: set<string>) {
    match o
    case Publication(m, order, agents, _, _, _, _, _, _) =>
      (forall a | a in agents :: a in enrolled) && (forall i: nat | i < m.chunks :: i in order)
    case Sweeping(_, _, _, _, _, _, _, _, _) => true
    case Retraction(agents, _, _, _, _, _) => agents <= enrolled
  }

  /**
   * What integrity over a whole history asks of one operation: a publication has an acknowledged
   * manifest put or none that lands while reported failed, and a retraction covers the fleet.
   */
  ghost predicate Sound(o: Operation, enrolled: set<string>) {
    match o
    case Publication(m, order, agents, _, deliver, _, _, _, _) =>
      (exists a | a in agents :: deliver(a).Lands?) || (forall a | a in agents :: !deliver(a).FailsButLands?)
    case Sweeping(_, _, _, _, _, _, _, _, _) => true
    case Retraction(agents, _, _, _, _, _) => agents == enrolled
  }

  class Controller {
    const enrolled: set<string>
    var manifests: map<string, Manifest>
    var chunks: set<(string, nat)>
    var rollouts: map<string, RolloutRow>

    constructor (enrolled: set<string>)
      ensures this.enrolled == enrolled && manifests == map[] && chunks == {} && rollouts == map[]
      ensures Valid() && Intact()
    {
      this.enrolled := enrolled;
      manifests, chunks, rollouts := map[], {}, map[];
    }

    /** Manifests exist only for enrolled agents. */
    predicate Valid()
      reads this
    {
      manifests.Keys <= enrolled
    }

    predicate Intact()
      reads this
    {
      IntactIn(manifests, chunks)
    }

    ghost function Now(): Books
      reads this
    {
      Books(manifests, chunks, rollouts)
    }

    /**
     * List a release's chunks and delete them one by one in any order. A delete that fails is
     * logged and skipped; only a failed listing is an error.
     */
    method DeleteRelease(release: string, list: Fate, deletes: nat -> Fate) returns (v: Verdict)
      modifies this`chunks
      ensures chunks <= old(chunks)
      ensures Others(chunks, release) == Others(old(chunks), release)
      ensures forall i: nat | (release, i) in old(chunks) && deletes(i).Fails? :: (release, i) in chunks
      ensures v.Succeeded? ==> forall i: nat | (release, i) in chunks :: deletes(i).Fails?
      ensures v.Crashed? ==> list.Crash? || exists i: nat :: (release, i) in old(chunks) && deletes(i).Crash?
      ensures v.Failed? ==> !list.Lands?
    {
      if list.Crash? { return Crashed; }
      if !list.Lands? { return Failed; }
      var todo := set c | c in chunks && c.0 == release;
      while todo != {}
        invariant todo <= chunks <= old(chunks)
        invariant forall c | c in todo :: c.0 == release
        invariant Others(chunks, release) == Others(old(chunks), release)
        invariant forall i: nat | (release, i) in old(chunks) && deletes(i).Fails? :: (release, i) in chunks
        invariant forall i: nat | (release, i) in chunks :: (release, i) in todo || deletes(i).Fails?
      {
        var c :| c in todo;
        todo := todo - {c};
        if deletes(c.1).Crash? { return Crashed; }
        if TookEffect(deletes(c.1)) { chunks := chunks - {c}; }
      }
      v := Succeeded;
    }

    /** Upload the chunks in some order; the first failure ends it. */
    method Stage(release: string, count: nat, order: seq<nat>, put: nat -> Fate) returns (v: Verdict)
      requires forall i: nat | i < count :: i in order
      modifies this`chunks
      ensures Others(chunks, release) == Others(old(chunks), release) && old(chunks) <= chunks
      ensures v.Succeeded? ==> forall i: nat | i < count :: (release, i) in chunks
      ensures forall c | c in chunks && c !in old(chunks) :: c.1 in order && TookEffect(put(c.1))
      ensures (forall i: nat :: put(i).Lands?) ==> v.Succeeded?
    {
      var n := 0;
      while n < |order|
        invariant n <= |order|
        invariant Others(chunks, release) == Others(old(chunks), release) && old(chunks) <= chunks
        invariant forall k | 0 <= k < n :: (release, order[k]) in chunks
        invariant forall c | c in chunks && c !in old(chunks) :: c.1 in order && TookEffect(put(c.1))
      {
        var i := order[n];
        if put(i).Crash? { return Crashed; }
        if TookEffect(put(i)) { chunks := chunks + {(release, i)}; }
        if !put(i).Lands? { return Failed; }
        n := n + 1;
      }
      forall i: nat | i < count ensures (release, i) in chunks {
        assert i in order;
        var k :| 0 <= k < |order| && order[k] == i;
      }
      v := Succeeded;
    }

    /** Uploads aborted in flight take effect late. */
    method Straggle(release: string, order: seq<nat>, straggles: nat -> bool)
      modifies this`chunks
      ensures Others(chunks, release) == Others(old(chunks), release)
      ensures forall i: nat :: (release, i) in chunks <==> (release, i) in old(chunks) || (i in order && straggles(i))
    {
      chunks := chunks + set i | i in order && straggles(i) :: (release, i);
    }

    /** Upload the chunks; after a failure delete what is there, and then what was in flight may land. */
    method StageOrUndo(release: string, count: nat, order: seq<nat>, put: nat -> Fate, straggles: nat -> bool,
                       list: Fate, deletes: nat -> Fate)
        returns (v: Verdict)
      requires (forall i: nat | i < count :: i in order) && forall i: nat :: (release, i) !in chunks
      modifies this`chunks
      ensures Others(chunks, release) == Others(old(chunks), release)
      ensures v.Succeeded? ==> forall i: nat | i < count :: (release, i) in chunks
      ensures (forall i: nat :: put(i).Lands?) ==> v.Succeeded?
      ensures v.Failed? && list.Lands? && (forall i: nat :: deletes(i).Lands?) ==>
        forall i: nat | (release, i) in chunks :: i in order && straggles(i)
    {
      v := Stage(release, count, order, put);
      if v.Succeeded? { return; }
      if v.Failed? {
        var d := DeleteRelease(release, list, deletes);
        if d.Crashed? { v := Crashed; }
      }
      Straggle(release, order, straggles);
    }

    /** Put one manifest per agent; failures are counted, not fatal. */
    method Deliver(m: Manifest, agents: seq<string>, deliver: string -> Fate) returns (v: Verdict, delivered: nat)
      requires Valid() && (forall a | a in agents :: a in enrolled) && !Names(manifests, m.release)
      modifies this`manifests
      ensures Valid()
      ensures forall a | a in old(manifests) :: a in manifests
      ensures Explained(manifests, old(manifests), m, agents, deliver)
      ensures v.Crashed? <==> exists a | a in agents :: deliver(a).Crash?
      ensures !v.Failed?
      ensures v.Succeeded? ==> forall a | a in agents && TookEffect(deliver(a)) :: a in manifests && manifests[a] == m
      ensures v.Succeeded? ==> (delivered > 0 <==> exists a | a in agents :: deliver(a).Lands?)
    {
      delivered := 0;
      var n := 0;
      while n < |agents|
        invariant n <= |agents| && Valid()
        invariant forall a | a in old(manifests) :: a in manifests
        invariant Explained(manifests, old(manifests), m, agents, deliver)
        invariant forall k | 0 <= k < n ::
          !deliver(agents[k]).Crash? && (TookEffect(deliver(agents[k])) ==> agents[k] in manifests && manifests[agents[k]] == m)
        invariant delivered > 0 <==> exists k | 0 <= k < n :: deliver(agents[k]).Lands?
      {
        var a := agents[n];
        if deliver(a).Crash? { return Crashed, delivered; }
        if TookEffect(deliver(a)) { manifests := manifests[a := m]; }
        if deliver(a).Lands? { delivered := delivered + 1; }
        n := n + 1;
      }
      v := Succeeded;
    }

    /**
     * Publish one build to `agents` under a new release id. `put` is the fate of each chunk
     * upload, `deliver` of each manifest put, `record` of the row in the ledger. Uploads that
     * straggle were in flight when another failed, and take effect after the cleanup has listed.
     */
    method Publish(m: Manifest, order: seq<nat>, agents: seq<string>, put: nat -> Fate, deliver: string -> Fate,
                   straggles: nat -> bool, list: Fate, deletes: nat -> Fate, record: Fate)
        returns (v: Verdict)
      requires Valid() && (forall a | a in agents :: a in enrolled) && (forall i: nat | i < m.chunks :: i in order)
      requires !Names(manifests, m.release) && (forall i: nat :: (m.release, i) !in chunks)
      modifies this
      // Nothing published before is lost, and only the new release's chunks come or go.
      ensures Valid() && Others(chunks, m.release) == Others(old(chunks), m.release)
      ensures forall a | a in old(manifests) :: a in manifests
      ensures Explained(manifests, old(manifests), m, agents, deliver)
      // Integrity holds at every crash point and after every failure, with one exception: a
      // manifest put reported as failed although it landed, when no other put was acknowledged.
      ensures old(Intact()) && (forall a | a in agents :: !deliver(a).FailsButLands?) ==> Intact()
      ensures old(Intact()) && (exists a | a in agents :: deliver(a).Lands?) ==> Intact()
      // With no crash and no other failure, exactly that exception breaks it.
      ensures old(Intact()) && m.chunks > 0 && list.Lands? && (forall i: nat :: put(i).Lands? && deletes(i).Lands?)
              && (forall a | a in agents :: !deliver(a).Crash?) ==>
        (Intact() <==> (exists a | a in agents :: deliver(a).Lands?) || (forall a | a in agents :: !deliver(a).FailsButLands?))
      ensures v.Succeeded? ==>
        && (exists a | a in agents :: deliver(a).Lands?)
        && (forall i: nat | i < m.chunks :: (m.release, i) in chunks)
        && (forall a | a in agents && deliver(a).Lands? :: a in manifests && manifests[a] == m)
        && rollouts == old(rollouts)[m.release := Recorded(old(rollouts), m)]
      ensures !v.Succeeded? ==> rollouts == old(rollouts) || rollouts == old(rollouts)[m.release := Recorded(old(rollouts), m)]
      // It succeeds when the uploads, one manifest put and the record do, and cleans up after a failure.
      ensures (forall i: nat :: put(i).Lands?) && record.Lands? && (exists a | a in agents :: deliver(a).Lands?)
              && (forall a | a in agents :: !deliver(a).Crash?) ==>
        v.Succeeded?
      ensures v.Failed? && list.Lands? && (forall i: nat :: deletes(i).Lands?) && !Names(manifests, m.release) ==>
        forall i: nat | (m.release, i) in chunks :: i in order && straggles(i)
    {
      hide Recorded, Runs, Others;
      ghost var intact := Intact();
      v := StageOrUndo(m.release, m.chunks, order, put, straggles, list, deletes);
      if intact { UnnamedChunksDoNotMatter(manifests, old(chunks), chunks, m.release); }
      if !v.Succeeded? { return; }
      var delivered;
      v, delivered := Deliver(m, agents, deliver);
      if v.Crashed? { return; }
      if delivered == 0 {
        var d := DeleteRelease(m.release, list, deletes);
        assert m.chunks > 0 && list.Lands? && (forall i: nat :: deletes(i).Lands?) ==> (m.release, 0) !in chunks;
        if intact && !Names(manifests, m.release) {
          assert forall a | a in manifests :: a in old(manifests) && manifests[a] == old(manifests)[a];
          UnnamedChunksDoNotMatter(manifests, old(chunks), chunks, m.release);
        }
        return if d.Crashed? then Crashed else Failed;
      }
      if record.Crash? { return Crashed; }
      if TookEffect(record) { rollouts := rollouts[m.release := Recorded(rollouts, m)]; }
      v := if record.Lands? then Succeeded else Failed;
    }

    /** Delete the manifests of `agents` one by one; the first failure ends it. */
    method Unpublish(agents: set<string>, unpublish: string -> Fate) returns (v: Verdict, count: nat)
      requires Valid()
      modifies this`manifests
      ensures Valid() && LostOf(old(manifests), manifests, agents)
      ensures v.Succeeded? ==> manifests.Keys !! agents && count == |agents|
      ensures v.Succeeded? <==> forall a | a in agents :: unpublish(a).Lands?
    {
      count := 0;
      var todo := agents;
      while todo != {}
        invariant Valid() && todo <= agents && count + |todo| == |agents|
        invariant LostOf(old(manifests), manifests, agents)
        invariant forall a | a in agents && a !in todo :: a !in manifests && unpublish(a).Lands?
      {
        var a :| a in todo;
        if unpublish(a).Crash? { return Crashed, count; }
        if TookEffect(unpublish(a)) { manifests := manifests - {a}; }
        if !unpublish(a).Lands? { return Failed, count; }
        todo := todo - {a};
        count := count + 1;
      }
      v := Succeeded;
    }

    /** Whether every holder still waited for runs its build; holders not seen since the cutoff do not count. */
    method AllRun(holders: set<string>, seen: map<string, SeenAgent>, cutoff: int) returns (complete: bool)
      requires forall a | a in holders :: a in manifests
      ensures complete <==> forall a | a in holders :: !Awaited(seen, cutoff, a, manifests[a])
      ensures complete <==> forall a | a in holders && a in seen && seen[a].lastSeen >= cutoff ::
        match seen[a].binarySha256
        case Some(hash) => hash == manifests[a].sha256
        case None => seen[a].version == Some(manifests[a].version)
    {
      var todo := holders;
      while todo != {}
        invariant todo <= holders
        invariant forall a | a in holders && a !in todo :: !Awaited(seen, cutoff, a, manifests[a])
      {
        var a :| a in todo;
        todo := todo - {a};
        if a !in seen || seen[a].lastSeen < cutoff { continue; }
        if !Runs(seen[a], manifests[a]) { return false; }
      }
      complete := true;
    }

    /** Remove one finished release: manifests first, then chunks, then the ledger entry. */
    method Retire(release: string, holders: set<string>, now: int, unpublish: string -> Fate,
                  list: Fate, deletes: nat -> Fate, complete: Fate)
        returns (v: Verdict, count: nat)
      requires Valid() && holders == Holders(manifests, release)
      modifies this
      ensures Valid() && LostOf(old(manifests), manifests, holders)
      ensures old(Intact()) ==> Intact()
      ensures chunks <= old(chunks) && Others(chunks, release) == Others(old(chunks), release)
      ensures v.Succeeded? ==>
        && manifests == old(manifests) - holders && count == |holders|
        && (forall i: nat | (release, i) in chunks :: deletes(i).Fails?)
        && rollouts == Completed(old(rollouts), release, now)
      ensures !v.Succeeded? ==> rollouts == old(rollouts) || rollouts == Completed(old(rollouts), release, now)
      ensures (forall a | a in holders :: unpublish(a).Lands?) && list.Lands? && complete.Lands?
              && (forall i: nat :: !deletes(i).Crash?) ==>
        v.Succeeded?
    {
      ghost var intact := Intact();
      v, count := Unpublish(holders, unpublish);
      if !v.Succeeded? { return; }
      ghost var before := chunks;
      v := DeleteRelease(release, list, deletes);
      if intact { UnnamedChunksDoNotMatter(manifests, before, chunks, release); }
      if !v.Succeeded? { return; }
      if complete.Crash? { return Crashed, count; }
      if TookEffect(complete) && release in rollouts {
        rollouts := rollouts[release := rollouts[release].(completedAt := Some(now))];
      }
      v := if complete.Lands? then Succeeded else Failed;
    }

    /** One release's turn in a sweep: retired if no holder is awaited, passed over otherwise. */
    method SweepOne(release: string, seen: map<string, SeenAgent>, cutoff: int, now: int, unpublish: string -> Fate,
                    list: Fate, deletes: (string, nat) -> Fate, complete: Fate,
                    ghost was: Books, ghost todo: set<string>, sofar: set<string>, counted: nat)
        returns (v: Verdict, removed: set<string>, count: nat)
      requires Valid() && release in todo
      requires SweptTo(was, Now(), Survey(seen, cutoff, now, deletes), sofar, todo, counted)
      modifies this
      ensures Valid() && (old(Intact()) ==> Intact())
      ensures LostOf(was.manifests, manifests, Finished(was.manifests, seen, cutoff))
      ensures LostOnly(was.chunks, chunks, FinishedReleases(was.manifests, seen, cutoff))
      ensures v.Succeeded? ==> SweptTo(was, Now(), Survey(seen, cutoff, now, deletes), removed, todo - {release}, count)
      ensures (forall a :: unpublish(a).Lands?) && list.Lands? && complete.Lands?
              && (forall r, i: nat :: !deletes(r, i).Crash?) ==>
        v.Succeeded?
    {
      hide SweptTo, Awaited, Completed, LostOf, LostOnly, IntactIn, Others, Finished, FinishedReleases, Holders;
      ghost var before, survey := Now(), Survey(seen, cutoff, now, deletes);
      removed, count := sofar, counted;
      var holders := Holders(manifests, release);
      var finished := AllRun(holders, seen, cutoff);
      if !finished {
        SweepStops(was, before, survey, sofar, todo, counted);
        SweepSkips(was, before, survey, sofar, todo, counted, release);
        return Succeeded, removed, count;
      }
      var n;
      v, n := Retire(release, holders, now, unpublish, list, (i: nat) => deletes(release, i), complete);
      SweepCutShort(was, before, Now(), survey, sofar, todo, counted, release);
      if !v.Succeeded? { return; }
      SweepRetires(was, before, Now(), survey, sofar, todo, counted, release);
      removed, count := sofar + {release}, counted + n;
    }

    /** The sweep proper: every release has its turn; the first failure ends it. */
    method SweepEach(seen: map<string, SeenAgent>, cutoff: int, now: int, unpublish: string -> Fate, list: string -> Fate,
                     deletes: (string, nat) -> Fate, complete: string -> Fate)
        returns (v: Verdict, removed: set<string>, count: nat)
      requires Valid()
      modifies this
      ensures Valid() && (old(Intact()) ==> Intact())
      ensures LostOf(old(manifests), manifests, Finished(old(manifests), seen, cutoff))
      ensures LostOnly(old(chunks), chunks, FinishedReleases(old(manifests), seen, cutoff))
      ensures v.Succeeded? ==>
        && manifests == old(manifests) - Finished(old(manifests), seen, cutoff)
        && removed == FinishedReleases(old(manifests), seen, cutoff)
        && count == |Finished(old(manifests), seen, cutoff)|
        && ClearedBut(chunks, removed, deletes)
        && rollouts == Ledger(old(rollouts), removed, now)
      ensures (forall a :: unpublish(a).Lands?) && (forall r :: list(r).Lands? && complete(r).Lands?)
              && (forall r, i: nat :: !deletes(r, i).Crash?) ==>
        v.Succeeded?
    {
      hide SweptTo, Awaited, Ledger, Completed, LostOf, LostOnly, ClearedBut, IntactIn, Others, Finished, FinishedReleases, Releases, Holders;
      removed, count := {}, 0;
      ghost var was, survey := Now(), Survey(seen, cutoff, now, deletes);
      var todo := Releases(manifests);
      SweepStarts(was, survey);
      while todo != {}
        invariant was == old(Now()) && Valid() && (old(Intact()) ==> Intact())
        invariant SweptTo(was, Now(), survey, removed, todo, count)
        decreases todo
      {
        var release :| release in todo;
        v, removed, count := SweepOne(release, seen, cutoff, now, unpublish, list(release), deletes, complete(release),
                                      was, todo, removed, count);
        if !v.Succeeded? { return; }
        todo := todo - {release};
      }
      SweepStops(was, Now(), survey, removed, todo, count);
      v := Succeeded;
    }

    /**
     * Remove every release all relevant agents run. `unreadable` are the agents whose manifest
     * cannot be read this time; any such agent ends the sweep before it changes anything.
     */
    method Sweep(seen: map<string, SeenAgent>, now: int, window: nat, cleanup: bool, unreadable: set<string>,
                 unpublish: string -> Fate, list: string -> Fate, deletes: (string, nat) -> Fate, complete: string -> Fate)
        returns (v: Verdict, removed: set<string>, count: nat)
      requires Valid()
      modifies this
      // However far it gets: integrity, and nothing but finished releases loses anything.
      ensures Valid() && (old(Intact()) ==> Intact())
      ensures LostOf(old(manifests), manifests, Finished(old(manifests), seen, now - window))
      ensures LostOnly(old(chunks), chunks, FinishedReleases(old(manifests), seen, now - window))
      ensures !cleanup ==> manifests == old(manifests) && chunks == old(chunks) && removed == {} && count == 0
      // When it succeeds: exactly the finished releases are gone, and the report says so.
      ensures v.Succeeded? && cleanup ==>
        && manifests == old(manifests) - Finished(old(manifests), seen, now - window)
        && removed == FinishedReleases(old(manifests), seen, now - window)
        && count == |Finished(old(manifests), seen, now - window)|
        && ClearedBut(chunks, removed, deletes)
        && rollouts == Ledger(old(rollouts), removed, now)
      // What is gone, however far it gets: no holder heard of lately reports another build.
      ensures forall a | a in manifests :: a in old(manifests) && manifests[a] == old(manifests)[a]
      ensures forall a, b | a in old(manifests) && a !in manifests && b in old(manifests) && b in seen
                && old(manifests)[b].release == old(manifests)[a].release && seen[b].lastSeen >= now - window ::
                match seen[b].binarySha256
                case Some(hash) => hash == old(manifests)[b].sha256
                case None => seen[b].version == Some(old(manifests)[b].version)
      ensures chunks <= old(chunks)
      ensures forall c | c in old(chunks) && c !in chunks :: exists a | a in old(manifests) :: old(manifests)[a].release == c.0
      ensures forall c, b | c in old(chunks) && c !in chunks && b in old(manifests) && b in seen
                && old(manifests)[b].release == c.0 && seen[b].lastSeen >= now - window ::
                match seen[b].binarySha256
                case Some(hash) => hash == old(manifests)[b].sha256
                case None => seen[b].version == Some(old(manifests)[b].version)
      // What is left after a success: some holder of the same release, heard of lately, reports another build.
      ensures v.Succeeded? && cleanup ==>
        forall a | a in manifests :: exists b | b in old(manifests) && b in seen ::
          old(manifests)[b].release == old(manifests)[a].release && seen[b].lastSeen >= now - window
          && match seen[b].binarySha256
             case Some(hash) => hash != old(manifests)[b].sha256
             case None => seen[b].version != Some(old(manifests)[b].version)
      // The report and the ledger name the releases whose manifests are gone, and their chunks are gone too.
      ensures v.Succeeded? && cleanup ==>
        forall r :: r in removed <==> exists a | a in old(manifests) && a !in manifests :: old(manifests)[a].release == r
      ensures v.Succeeded? && cleanup ==>
        forall a, i: nat | a in old(manifests) && a !in manifests && (old(manifests)[a].release, i) in chunks ::
          deletes(old(manifests)[a].release, i).Fails?
      ensures v.Succeeded? && cleanup ==>
        && rollouts.Keys == old(rollouts).Keys
        && forall r | r in rollouts ::
             rollouts[r] == if r in removed then old(rollouts)[r].(completedAt := Some(now)) else old(rollouts)[r]
      ensures !cleanup ==> v.Succeeded?
      ensures (forall a | a in unreadable :: a !in enrolled) && (forall a :: unpublish(a).Lands?)
              && (forall r :: list(r).Lands? && complete(r).Lands?) && (forall r, i: nat :: !deletes(r, i).Crash?) ==>
        v.Succeeded?
    {
      hide LostOf, LostOnly, ClearedBut, Ledger, IntactIn, Finished, FinishedReleases;
      ghost var was, survey := Now(), Survey(seen, now - window, now, deletes);
      assert manifests - {} == manifests;
      LostSome(manifests, {}, Finished(manifests, seen, now - window));
      NothingLostYet(chunks, FinishedReleases(manifests, seen, now - window), deletes);
      v, removed, count := Succeeded, {}, 0;
      if cleanup && exists a | a in unreadable :: a in enrolled {
        v := Failed;
      } else if cleanup {
        v, removed, count := SweepEach(seen, now - window, now, unpublish, list, deletes, complete);
      }
      SweptMeans(was, Now(), survey);
      if v.Succeeded? && cleanup { ReportMeans(was, Now(), survey, removed); }
    }

    /**
     * Withdraw a published update from `agents`, and with `alsoRelease` delete every release
     * their readable manifests named. The manifests go first, all of them.
     */
    method Retract(agents: set<string>, alsoRelease: bool, unreadable: set<string>,
                   unpublish: string -> Fate, list: string -> Fate, deletes: (string, nat) -> Fate)
        returns (v: Verdict)
      requires Valid() && agents <= enrolled
      modifies this`manifests, this`chunks
      ensures Valid() && LostOf(old(manifests), manifests, agents)
      ensures !alsoRelease ==> chunks == old(chunks)
      ensures LostOnly(old(chunks), chunks, NamedBy(old(manifests), agents - unreadable))
      ensures v.Succeeded? ==> manifests == old(manifests) - agents
      ensures v.Succeeded? && alsoRelease ==> ClearedBut(chunks, NamedBy(old(manifests), agents - unreadable), deletes)
      // In the fields of the manifests: what goes was named by one of the agents, and all of it goes.
      ensures forall a | a in old(manifests) && a !in agents :: a in manifests && manifests[a] == old(manifests)[a]
      ensures v.Succeeded? ==> forall a | a in agents :: a !in manifests
      ensures chunks <= old(chunks)
      ensures forall c | c in old(chunks) && c !in chunks ::
        exists a | a in agents - unreadable && a in old(manifests) :: old(manifests)[a].release == c.0
      ensures v.Succeeded? && alsoRelease ==>
        forall a, i: nat | a in agents - unreadable && a in old(manifests) && (old(manifests)[a].release, i) in chunks ::
          deletes(old(manifests)[a].release, i).Fails?
      ensures (forall a | a in agents :: unpublish(a).Lands?) && (forall r :: list(r).Lands?)
              && (forall r, i: nat :: !deletes(r, i).Crash?) ==>
        v.Succeeded?
      // Kept when no agent outside the list holds a release named inside it -- so always for the whole fleet.
      ensures old(Intact()) && Separate(old(manifests), agents) ==> Intact()
      ensures old(Intact()) && agents == enrolled ==> Intact()
    {
      hide ClearedBut, LostOnly;
      ghost var was, all := manifests, NamedBy(manifests, agents - unreadable);
      var todo := if alsoRelease then NamedBy(manifests, agents - unreadable) else {};
      ghost var deleted: set<string> := {};
      NothingLostYet(chunks, all, deletes);
      RetractionMeans(manifests, agents - unreadable, chunks, chunks, deletes);
      var n;
      v, n := Unpublish(agents, unpublish);
      if !v.Succeeded? { return; }
      assert manifests == was - agents;
      while todo != {}
        invariant manifests == was - agents && todo <= all && (!alsoRelease ==> todo == {} && chunks == old(chunks))
        invariant alsoRelease ==> deleted + todo == all
        invariant LostOnly(old(chunks), chunks, all) && ClearedBut(chunks, deleted, deletes)
        invariant old(Intact()) && Separate(was, agents) ==> Intact()
        decreases todo
      {
        var r :| r in todo;
        ghost var before := chunks;
        ghost var intact := Intact();
        v := DeleteRelease(r, list(r), (i: nat) => deletes(r, i));
        LostOneMore(old(chunks), before, chunks, r, all);
        RetractionMeans(was, agents - unreadable, old(chunks), chunks, deletes);
        if intact && Separate(was, agents) {
          NamedInsideOnly(was, agents, unreadable, r);
          UnnamedChunksDoNotMatter(manifests, before, chunks, r);
        }
        if !v.Succeeded? { return; }
        ClearedOneMore(before, chunks, r, deleted, deletes);
        todo, deleted := todo - {r}, deleted + {r};
      }
      RetractionMeans(was, agents - unreadable, old(chunks), chunks, deletes);
      v := Succeeded;
    }

    /**
     * Any history of operations on the bucket, one after another, each with its own fates: it keeps
     * integrity when all of them are sound. The release id of a publication is new: one already in
     * use is passed over.
     */
    method Operate(history: seq<Operation>)
      requires Valid() && forall o | o in history :: WellFormed(o, enrolled)
      modifies this
      ensures Valid()
      ensures old(Intact()) && (forall o | o in history :: Sound(o, enrolled)) ==> Intact()
    {
      ghost var sound := Intact() && forall o | o in history :: Sound(o, enrolled);
      var n := 0;
      while n < |history|
        invariant n <= |history| && Valid() && (sound ==> Intact())
      {
        var o := history[n];
        n := n + 1;
        assert WellFormed(o, enrolled) && (sound ==> Sound(o, enrolled));
        match o
        case Publication(m, order, agents, put, deliver, straggles, list, deletes, record) =>
          if !Names(manifests, m.release) && (forall c | c in chunks :: c.0 != m.release) {
            var _ := Publish(m, order, agents, put, deliver, straggles, list, deletes, record);
          }
        case Sweeping(seen, now, window, cleanup, unreadable, unpublish, list, deletes, complete) =>
          var _, _, _ := Sweep(seen, now, window, cleanup, unreadable, unpublish, list, deletes, complete);
        case Retraction(agents, alsoRelease, unreadable, unpublish, list, deletes) =>
          var _ := Retract(agents, alsoRelease, unreadable, unpublish, list, deletes);
      }
    }
  }
}
