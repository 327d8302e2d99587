/**
 * The command mailbox: a list/get/delete consumer that is not atomic, run by one process and
 * its restarts or by several processes that share an identity.
 */
module Mailbox {
  import opened Base
  import Protocol
  import opened Sorting

  /** `readable` is false for an object the agent's key does not open. */
  datatype Command = Command(id: string, instance: Option<string>, createdAt: int, readable: bool)

  datatype Phase =
    | Waiting
    | Draining(todo: seq<string>, claimed: seq<Command>)
    | Claiming(command: Command, todo: seq<string>, claimed: seq<Command>)    // fetched, not yet deleted
    | Discarding(id: string, todo: seq<string>, claimed: seq<Command>)        // fetched, does not open
    | Working(queue: seq<Command>)

  /** `sent`, `started`, `executed` and `removed` are history. */
  datatype Mail = Mail(
    bucket: map<string, Command>, procs: map<string, Phase>,
    sent: map<string, Command>, started: set<string>,
    executed: seq<(string, Command)>, removed: seq<(string, string)>)

  datatype Step =
    | Send(command: Command)
    | Withdraw(id: string)                   // the controller deletes its own command
    | Start(p: string)
    | Crash(p: string)
    | List(p: string, keys: seq<string>)
    | Fetch(p: string)
    | Delete(p: string)
    | DeleteFails(p: string, landed: bool)
    | Discard(p: string, landed: bool)
    | PollFails(p: string)
    | Finish(p: string, queue: seq<Command>)
    | Execute(p: string)
    | Decline(p: string)                     // suspended, expired or misrouted: not executed
    | Rest(p: string)

  predicate Claimable(p: string, c: Command) {
    c.instance.None? || c.instance.value == p
  }

  predicate NoDuplicates<T(==)>(s: seq<T>) {
    forall i, j | 0 <= i < j < |s| :: s[i] != s[j]
  }

  predicate In(m: Mail, p: string) {
    p in m.procs
  }

  ghost predicate Enabled(m: Mail, step: Step) {
    match step
    case Send(c) => c.id !in m.sent
    case Withdraw(id) => id in m.bucket
    case Start(p) => p !in m.started
    case Crash(p) => In(m, p)
    case List(p, keys) =>
      In(m, p) && m.procs[p].Waiting? && NoDuplicates(keys) && (forall k :: k in keys <==> k in m.bucket)
    case Fetch(p) => In(m, p) && m.procs[p].Draining? && m.procs[p].todo != []
    case Delete(p) => In(m, p) && m.procs[p].Claiming?
    case DeleteFails(p, _) => In(m, p) && m.procs[p].Claiming?
    case Discard(p, _) => In(m, p) && m.procs[p].Discarding?
    case PollFails(p) => In(m, p) && m.procs[p].Draining?
    case Finish(p, queue) =>
      In(m, p) && m.procs[p].Draining? && m.procs[p].todo == []
      && multiset(queue) == multiset(m.procs[p].claimed)
    case Execute(p) => In(m, p) && m.procs[p].Working? && m.procs[p].queue != []
    case Decline(p) => In(m, p) && m.procs[p].Working? && m.procs[p].queue != []
    case Rest(p) => In(m, p) && m.procs[p].Working? && m.procs[p].queue == []
  }

  /** What a fetch of the next listed key leads to. */
  function Fetched(m: Mail, p: string, todo: seq<string>, claimed: seq<Command>): Phase
    requires todo != []
  {
    var id, rest := todo[0], todo[1..];
    if id !in m.bucket then Draining(rest, claimed)
    else if !m.bucket[id].readable then Discarding(id, rest, claimed)
    else if !Claimable(p, m.bucket[id]) then Draining(rest, claimed)
    else Claiming(m.bucket[id], rest, claimed)
  }

  ghost function Apply(m: Mail, step: Step): Mail
    requires Enabled(m, step)
  {
    match step
    case Send(c) => m.(bucket := m.bucket[c.id := c], sent := m.sent[c.id := c])
    case Withdraw(id) => m.(bucket := m.bucket - {id})
    case Start(p) => m.(procs := m.procs[p := Waiting], started := m.started + {p})
    case Crash(p) => m.(procs := m.procs - {p})
    case List(p, keys) => m.(procs := m.procs[p := Draining(keys, [])])
    case Fetch(p) => m.(procs := m.procs[p := Fetched(m, p, m.procs[p].todo, m.procs[p].claimed)])
    case Delete(p) =>
      var ph := m.procs[p];
      m.(bucket := m.bucket - {ph.command.id}, removed := m.removed + [(p, ph.command.id)],
         procs := m.procs[p := Draining(ph.todo, ph.claimed + [ph.command])])
    case DeleteFails(p, landed) =>
      var id := m.procs[p].command.id;
      var m' := m.(procs := m.procs[p := Waiting]);
      if landed then m'.(bucket := m.bucket - {id}, removed := m.removed + [(p, id)]) else m'
    case Discard(p, landed) =>
      var ph := m.procs[p];
      var m' := m.(procs := m.procs[p := Draining(ph.todo, ph.claimed)]);
      if landed then m'.(bucket := m.bucket - {ph.id}, removed := m.removed + [(p, ph.id)]) else m'
    case PollFails(p) => m.(procs := m.procs[p := Waiting])
    case Finish(p, queue) => m.(procs := m.procs[p := Working(queue)])
    case Execute(p) =>
      var queue := m.procs[p].queue;
      m.(procs := m.procs[p := Working(queue[1..])], executed := m.executed + [(p, queue[0])])
    case Decline(p) => m.(procs := m.procs[p := Working(m.procs[p].queue[1..])])
    case Rest(p) => m.(procs := m.procs[p := Waiting])
  }

  ghost predicate Legal(m: Mail, run: seq<Step>)
    decreases run
  {
    run == [] || (Enabled(m, run[0]) && Legal(Apply(m, run[0]), run[1..]))
  }

  ghost function Exec(m: Mail, run: seq<Step>): Mail
    requires Legal(m, run)
    decreases run
  {
    if run == [] then m else Exec(Apply(m, run[0]), run[1..])
  }

  const EMPTY := Mail(map[], map[], map[], {}, [], [])

  // ---- The invariant ----

  /** Commands a process has deleted from the bucket and not yet executed. */
  function Held(ph: Phase): seq<Command> {
    match ph
    case Waiting => []
    case Draining(_, claimed) => claimed
    case Claiming(_, _, claimed) => claimed
    case Discarding(_, _, claimed) => claimed
    case Working(queue) => queue
  }

  function Todo(ph: Phase): seq<string> {
    match ph
    case Draining(todo, _) => todo
    case Claiming(_, todo, _) => todo
    case Discarding(_, todo, _) => todo
    case _ => []
  }

  /** Only one process can ever claim this command: it is addressed, or the process is alone. */
  predicate Exclusive(alone: bool, c: Command) {
    alone || c.instance.Some?
  }

  ghost predicate Executed(m: Mail, id: string) {
    exists e :: e in m.executed && e.1.id == id
  }

  ghost predicate Holds(ph: Phase, id: string) {
    exists c :: c in Held(ph) && c.id == id
  }

  predicate DistinctIds(s: seq<Command>) {
    forall i, j | 0 <= i < j < |s| :: s[i].id != s[j].id
  }

  /** The command is one that was sent, and this process may run it. */
  predicate Genuine(m: Mail, p: string, c: Command) {
    c.id in m.sent && m.sent[c.id] == c && c.readable && Claimable(p, c)
  }

  ghost predicate Gone(m: Mail, c: Command) {
    c.id !in m.bucket && !Executed(m, c.id)
  }

  ghost predicate PhaseOk(m: Mail, alone: bool, p: string, ph: Phase) {
    && NoDuplicates(Todo(ph))
    && DistinctIds(Held(ph))
    && (forall c | c in Held(ph) :: Genuine(m, p, c) && (Exclusive(alone, c) ==> Gone(m, c)))
    && (forall id | id in Todo(ph) ::
          id in m.sent && !Holds(ph, id)
          && (Exclusive(alone, m.sent[id]) && Claimable(p, m.sent[id]) ==> !Executed(m, id)))
    && (ph.Claiming? ==>
          && Genuine(m, p, ph.command) && ph.command.id !in ph.todo && !Holds(ph, ph.command.id)
          && (Exclusive(alone, ph.command) ==> !Executed(m, ph.command.id)))
    && (ph.Discarding? ==> ph.id in m.sent && !m.sent[ph.id].readable)
  }

  ghost predicate HistoryOk(m: Mail, alone: bool) {
    && (forall e | e in m.executed ::
          Genuine(m, e.0, e.1) && (Exclusive(alone, e.1) ==> e.1.id !in m.bucket))
    && (forall i, j | 0 <= i < j < |m.executed| && Exclusive(alone, m.executed[i].1) ::
          m.executed[i].1.id != m.executed[j].1.id)
    && (forall r | r in m.removed ::
          r.1 in m.sent && (m.sent[r.1].readable ==> Claimable(r.0, m.sent[r.1])))
  }

  ghost predicate Inv(m: Mail, alone: bool) {
    && (forall id | id in m.bucket :: id in m.sent && m.sent[id] == m.bucket[id] && m.bucket[id].id == id)
    && (forall id | id in m.sent :: m.sent[id].id == id)
    && (alone ==> forall p, q | p in m.procs && q in m.procs :: p == q)
    && (forall p | p in m.procs :: PhaseOk(m, alone, p, m.procs[p]))
    && HistoryOk(m, alone)
  }

  /** What a step may do to the rest of the world without disturbing a process's invariant. */
  ghost predicate Gentle(m: Mail, n: Mail) {
    && (forall id | id in m.sent :: id in n.sent && n.sent[id] == m.sent[id])
    && (forall id | id in n.bucket && id in m.sent :: id in m.bucket)
    && n.executed == m.executed
  }

  lemma GentleKeepsPhase(m: Mail, n: Mail, alone: bool, p: string, ph: Phase)
    requires Gentle(m, n) && PhaseOk(m, alone, p, ph)
    ensures PhaseOk(n, alone, p, ph)
  {
    assert forall id :: Executed(m, id) <==> Executed(n, id);
  }

  // Each step of a process, seen from that process.

  lemma ListKeepsPhase(m: Mail, alone: bool, p: string, keys: seq<string>)
    requires Inv(m, alone) && Enabled(m, List(p, keys))
    ensures PhaseOk(m, alone, p, Draining(keys, []))
  {
    forall id | id in keys && Exclusive(alone, m.sent[id]) ensures !Executed(m, id) {
      assert forall e | e in m.executed :: Genuine(m, e.0, e.1);
    }
  }

  lemma FetchKeepsPhase(m: Mail, alone: bool, p: string)
    requires Inv(m, alone) && Enabled(m, Fetch(p))
    ensures PhaseOk(m, alone, p, Fetched(m, p, m.procs[p].todo, m.procs[p].claimed))
  {
    var ph := m.procs[p];
    var ph' := Fetched(m, p, ph.todo, ph.claimed);
    var id := ph.todo[0];
    assert Held(ph') == Held(ph) && Todo(ph) == ph.todo;
    assert forall k :: Holds(ph', k) <==> Holds(ph, k);
    assert id in ph.todo;
    assert Todo(ph') == ph.todo[1..];
    assert forall k | k in Todo(ph') :: k in ph.todo && k != id;
  }

  lemma DeleteKeepsPhase(m: Mail, alone: bool, p: string)
    requires Inv(m, alone) && Enabled(m, Delete(p))
    ensures PhaseOk(Apply(m, Delete(p)), alone, p, Apply(m, Delete(p)).procs[p])
  {
    var ph, n := m.procs[p], Apply(m, Delete(p));
    GentleKeepsPhase(m, n, alone, p, ph);
    var ph' := n.procs[p];
    assert Held(ph') == Held(ph) + [ph.command];
    forall c | c in Held(ph') ensures c in Held(ph) || c == ph.command {}
    forall id | Holds(ph', id) ensures Holds(ph, id) || id == ph.command.id {}
  }

  lemma SameHeldKeepsPhase(m: Mail, alone: bool, p: string, ph: Phase, ph': Phase)
    requires PhaseOk(m, alone, p, ph) && Todo(ph') == [] && !ph'.Claiming? && !ph'.Discarding?
    requires (forall c | c in Held(ph') :: c in Held(ph)) && DistinctIds(Held(ph'))
    ensures PhaseOk(m, alone, p, ph')
  {
  }

  lemma PermutationKeepsDistinct(s: seq<Command>, t: seq<Command>)
    requires multiset(s) == multiset(t) && DistinctIds(s)
    ensures DistinctIds(t) && forall c | c in t :: c in s
  {
    forall c | c in t ensures c in s { assert c in multiset(t); }
    forall i, j | 0 <= i < j < |t| ensures t[i].id != t[j].id {
      assert t[i] in s && t[j] in s;
      if t[i].id == t[j].id {
        DistinctIdsOnce(s, t[i], t[j]);
        assert t == t[..i] + [t[i]] + t[i + 1..j] + [t[j]] + t[j + 1..];
        assert multiset(t)[t[i]] >= 2;
        OnceInDistinct(s, t[i]);
      }
    }
  }

  lemma DistinctIdsOnce(s: seq<Command>, c: Command, d: Command)
    requires DistinctIds(s) && c in s && d in s && c.id == d.id
    ensures c == d
  {
    var i :| 0 <= i < |s| && s[i] == c;
    var j :| 0 <= j < |s| && s[j] == d;
    assert i == j;
  }

  lemma {:induction false} OnceInDistinct(s: seq<Command>, c: Command)
    requires DistinctIds(s)
    ensures multiset(s)[c] <= 1
  {
    if s != [] {
      assert s == [s[0]] + s[1..];
      OnceInDistinct(s[1..], c);
      assert forall i | 0 <= i < |s[1..]| :: s[1..][i] == s[i + 1];
      assert s[0] !in s[1..];
    }
  }

  /** Two processes never both may claim an exclusive command. */
  lemma OneClaimant(m: Mail, alone: bool, p: string, q: string, c: Command)
    requires Inv(m, alone) && p in m.procs && q in m.procs
    requires Exclusive(alone, c) && Claimable(p, c) && Claimable(q, c)
    ensures p == q
  {
  }

  lemma ExecuteKeepsOwn(m: Mail, n: Mail, alone: bool, p: string, queue: seq<Command>)
    requires PhaseOk(m, alone, p, Working(queue)) && queue != []
    requires n.bucket == m.bucket && n.sent == m.sent && n.executed == m.executed + [(p, queue[0])]
    ensures PhaseOk(n, alone, p, Working(queue[1..]))
  {
    assert forall id | Executed(n, id) :: Executed(m, id) || id == queue[0].id;
    forall d | d in queue[1..] ensures d in Held(Working(queue)) && d.id != queue[0].id {
      var i :| 0 <= i < |queue[1..]| && queue[1..][i] == d;
      assert queue[i + 1] == d;
    }
  }

  lemma ExecuteKeepsInv(m: Mail, alone: bool, p: string)
    requires Inv(m, alone) && Enabled(m, Execute(p))
    ensures Inv(Apply(m, Execute(p)), alone)
  {
    hide PhaseOk, HistoryOk, Gone, Executed, Exclusive;
    var n := Apply(m, Execute(p));
    var queue := m.procs[p].queue;
    HeadIsGenuine(m, alone, p, queue);
    forall q | q in n.procs ensures PhaseOk(n, alone, q, n.procs[q]) {
      if q == p {
        ExecuteKeepsOwn(m, n, alone, p, queue);
      } else {
        ExecuteKeepsOther(m, n, alone, p, q, queue[0]);
      }
    }
    ExecuteKeepsHistory(m, n, alone, p, queue[0]);
  }

  lemma HeadIsGenuine(m: Mail, alone: bool, p: string, queue: seq<Command>)
    requires PhaseOk(m, alone, p, Working(queue)) && queue != []
    ensures Genuine(m, p, queue[0]) && (Exclusive(alone, queue[0]) ==> Gone(m, queue[0]))
  {
    assert queue[0] in Held(Working(queue));
  }

  lemma ExecuteKeepsHistory(m: Mail, n: Mail, alone: bool, p: string, c: Command)
    requires HistoryOk(m, alone) && Genuine(m, p, c) && (Exclusive(alone, c) ==> Gone(m, c))
    requires n.bucket == m.bucket && n.sent == m.sent && n.removed == m.removed
    requires n.executed == m.executed + [(p, c)]
    ensures HistoryOk(n, alone)
  {
    forall e | e in n.executed ensures e in m.executed || e == (p, c) {}
    forall i, j | 0 <= i < j < |n.executed| && Exclusive(alone, n.executed[i].1)
      ensures n.executed[i].1.id != n.executed[j].1.id
    {
      if j == |m.executed| {
        assert n.executed[i] in m.executed && Genuine(m, n.executed[i].0, n.executed[i].1);
      }
    }
  }

  lemma ExecuteKeepsOther(m: Mail, n: Mail, alone: bool, p: string, q: string, c: Command)
    requires Inv(m, alone) && p in m.procs && q in m.procs && p != q
    requires Genuine(m, p, c)
    requires n.bucket == m.bucket && n.sent == m.sent && n.executed == m.executed + [(p, c)]
    ensures PhaseOk(n, alone, q, m.procs[q])
  {
    var ph := m.procs[q];
    assert forall id | Executed(n, id) :: Executed(m, id) || id == c.id;
    forall d: Command | Exclusive(alone, d) && Claimable(q, d) && d.id in m.sent && m.sent[d.id] == d
      ensures d.id != c.id
    {
      if d.id == c.id { OneClaimant(m, alone, p, q, c); }
    }
  }

  lemma SendKeepsInv(m: Mail, alone: bool, c: Command)
    requires Inv(m, alone) && Enabled(m, Send(c))
    ensures Inv(Apply(m, Send(c)), alone)
  {
    var n := Apply(m, Send(c));
    forall q | q in n.procs ensures PhaseOk(n, alone, q, n.procs[q]) {
      GentleKeepsPhase(m, n, alone, q, m.procs[q]);
    }
  }

  /** A step that changes one process, and removes at most from the bucket. */
  lemma LocalStep(m: Mail, n: Mail, alone: bool, p: string)
    requires Inv(m, alone) && n.sent == m.sent && n.executed == m.executed
    requires forall id | id in n.bucket :: id in m.bucket && n.bucket[id] == m.bucket[id]
    requires forall q | q in n.procs && q != p :: q in m.procs && n.procs[q] == m.procs[q]
    requires p in n.procs ==> PhaseOk(n, alone, p, n.procs[p]) || (p in m.procs && n.procs[p] == m.procs[p])
    requires alone && p in n.procs && p !in m.procs ==> m.procs == map[]
    requires n.removed == m.removed
          || exists r :: n.removed == m.removed + [r] && r.1 in m.sent && (m.sent[r.1].readable ==> Claimable(r.0, m.sent[r.1]))
    ensures Inv(n, alone)
  {
    forall q | q in n.procs ensures PhaseOk(n, alone, q, n.procs[q]) {
      if q in m.procs && n.procs[q] == m.procs[q] { GentleKeepsPhase(m, n, alone, q, m.procs[q]); }
    }
  }

  lemma DeleteKeepsInv(m: Mail, alone: bool, p: string)
    requires Inv(m, alone) && Enabled(m, Delete(p))
    ensures Inv(Apply(m, Delete(p)), alone)
  {
    DeleteKeepsPhase(m, alone, p);
    var r := (p, m.procs[p].command.id);
    assert Apply(m, Delete(p)).removed == m.removed + [r] && m.sent[r.1] == m.procs[p].command;
    LocalStep(m, Apply(m, Delete(p)), alone, p);
  }

  lemma DeleteFailsKeepsInv(m: Mail, alone: bool, p: string, landed: bool)
    requires Inv(m, alone) && Enabled(m, DeleteFails(p, landed))
    ensures Inv(Apply(m, DeleteFails(p, landed)), alone)
  {
    var n := Apply(m, DeleteFails(p, landed));
    var r := (p, m.procs[p].command.id);
    assert m.sent[r.1] == m.procs[p].command;
    assert landed ==> n.removed == m.removed + [r];
    LocalStep(m, n, alone, p);
  }

  lemma DiscardKeepsInv(m: Mail, alone: bool, p: string, landed: bool)
    requires Inv(m, alone) && Enabled(m, Discard(p, landed))
    ensures Inv(Apply(m, Discard(p, landed)), alone)
  {
    var ph, n := m.procs[p], Apply(m, Discard(p, landed));
    GentleKeepsPhase(m, n, alone, p, ph);
    assert Held(n.procs[p]) == Held(ph) && Todo(n.procs[p]) == Todo(ph);
    assert forall k :: Holds(n.procs[p], k) <==> Holds(ph, k);
    assert landed ==> n.removed == m.removed + [(p, ph.id)];
    LocalStep(m, n, alone, p);
  }

  lemma HeldIsDistinct(m: Mail, alone: bool, p: string, ph: Phase)
    requires PhaseOk(m, alone, p, ph)
    ensures DistinctIds(Held(ph))
  {
  }

  lemma QueueKeepsInv(m: Mail, alone: bool, p: string, step: Step)
    requires Inv(m, alone) && Enabled(m, step) && p in m.procs
    requires step == Decline(p) || step == Rest(p) || step == PollFails(p) || (step.Finish? && step.p == p)
    ensures Inv(Apply(m, step), alone)
  {
    hide PhaseOk, HistoryOk;
    var ph, n := m.procs[p], Apply(m, step);
    HeldIsDistinct(m, alone, p, ph);
    if step.Finish? { PermutationKeepsDistinct(ph.claimed, step.queue); }
    if step.Decline? {
      forall c | c in Held(n.procs[p]) ensures c in Held(ph) { assert c in ph.queue; }
    }
    SameHeldKeepsPhase(m, alone, p, ph, n.procs[p]);
    GentleKeepsPhase(m, n, alone, p, n.procs[p]);
    LocalStep(m, n, alone, p);
  }

  lemma PollKeepsInv(m: Mail, alone: bool, p: string, step: Step)
    requires Inv(m, alone) && Enabled(m, step)
    requires (step.List? && step.p == p) || step == Fetch(p)
    ensures Inv(Apply(m, step), alone)
  {
    hide PhaseOk, HistoryOk;
    var n := Apply(m, step);
    if step.List? { ListKeepsPhase(m, alone, p, step.keys); } else { FetchKeepsPhase(m, alone, p); }
    GentleKeepsPhase(m, n, alone, p, n.procs[p]);
    LocalStep(m, n, alone, p);
  }

  lemma LifeKeepsInv(m: Mail, step: Step, alone: bool, p: string)
    requires Inv(m, alone) && Enabled(m, step)
    requires step == Start(p) || step == Crash(p) || step.Withdraw?
    requires alone && step.Start? ==> m.procs == map[]
    ensures Inv(Apply(m, step), alone)
  {
    LocalStep(m, Apply(m, step), alone, p);
  }

  lemma StepKeepsInv(m: Mail, step: Step, alone: bool)
    requires Inv(m, alone) && Enabled(m, step)
    requires alone && step.Start? ==> m.procs == map[]
    ensures Inv(Apply(m, step), alone)
  {
    hide Inv, Apply;
    match step
    case Execute(p) => ExecuteKeepsInv(m, alone, p);
    case Send(c) => SendKeepsInv(m, alone, c);
    case Withdraw(id) => LifeKeepsInv(m, step, alone, "");
    case Start(p) => LifeKeepsInv(m, step, alone, p);
    case Crash(p) => LifeKeepsInv(m, step, alone, p);
    case List(p, keys) => PollKeepsInv(m, alone, p, step);
    case Fetch(p) => PollKeepsInv(m, alone, p, step);
    case Delete(p) => DeleteKeepsInv(m, alone, p);
    case DeleteFails(p, landed) => DeleteFailsKeepsInv(m, alone, p, landed);
    case Discard(p, landed) => DiscardKeepsInv(m, alone, p, landed);
    case _ => QueueKeepsInv(m, alone, step.p, step);
  }

  // ---- The theorems ----

  /** A process starts only after its predecessor is gone. */
  ghost predicate OneAtATime(m: Mail, run: seq<Step>)
    requires Legal(m, run)
    decreases run
  {
    run == [] || ((run[0].Start? ==> m.procs == map[]) && OneAtATime(Apply(m, run[0]), run[1..]))
  }

  lemma {:induction false} RunKeepsInv(m: Mail, run: seq<Step>, alone: bool)
    requires Inv(m, alone) && Legal(m, run) && (alone ==> OneAtATime(m, run))
    ensures Inv(Exec(m, run), alone)
    decreases run
  {
    hide Inv, Enabled, Apply;
    if run != [] {
      StepKeepsInv(m, run[0], alone);
      RunKeepsInv(Apply(m, run[0]), run[1..], alone);
    }
  }

  lemma EmptyOk(alone: bool)
    ensures Inv(EMPTY, alone)
  {
  }

  /**
   * At most once. However list, get, delete and execute interleave with crashes, failed deletes
   * that may have landed, and restarts, one process at a time never executes an id twice.
   */
  lemma AtMostOnce(run: seq<Step>, i: nat, j: nat)
    requires Legal(EMPTY, run) && OneAtATime(EMPTY, run)
    requires i < j < |Exec(EMPTY, run).executed|
    ensures Exec(EMPTY, run).executed[i].1.id != Exec(EMPTY, run).executed[j].1.id
  {
    EmptyOk(true);
    RunKeepsInv(EMPTY, run, true);
  }

  /**
   * Addressed commands, with any number of processes on the mailbox: only the addressee executes
   * one, at most once, and only the addressee takes a readable one out of the bucket.
   */
  lemma AddressedAtMostOnce(run: seq<Step>)
    requires Legal(EMPTY, run)
    ensures var m := Exec(EMPTY, run);
      && (forall e | e in m.executed && e.1.instance.Some? :: e.0 == e.1.instance.value)
      && (forall i, j | 0 <= i < j < |m.executed| && m.executed[i].1.instance.Some? ::
            m.executed[i].1.id != m.executed[j].1.id)
      && (forall r | r in m.removed && r.1 in m.sent && m.sent[r.1].readable && m.sent[r.1].instance.Some? ::
            r.0 == m.sent[r.1].instance.value)
  {
    EmptyOk(false);
    RunKeepsInv(EMPTY, run, false);
  }

  // ---- Without an address and with company, a command may run twice ----

  ghost predicate Reaches(m: Mail, run: seq<Step>, n: Mail) {
    Legal(m, run) && Exec(m, run) == n
  }

  lemma {:induction false} Then(m: Mail, run: seq<Step>, n: Mail, step: Step)
    requires Reaches(m, run, n) && Enabled(n, step)
    ensures Reaches(m, run + [step], Apply(n, step))
    decreases run
  {
    if run == [] {
      assert run + [step] == [step] && [step][1..] == [];
    } else {
      assert (run + [step])[1..] == run[1..] + [step];
      Then(Apply(m, run[0]), run[1..], n, step);
    }
  }

  lemma Stay(m: Mail)
    ensures Reaches(m, [], m)
  {
  }

  /** Both processes are running and the command is queued. */
  function Queued(c: Command, p: string, q: string): Mail {
    Mail(map[c.id := c], map[p := Waiting, q := Waiting], map[c.id := c], {p, q}, [], [])
  }

  /** Both have fetched the command and neither has deleted it yet. */
  function Raced(c: Command, p: string, q: string): Mail {
    Queued(c, p, q).(procs := map[p := Claiming(c, [], []), q := Claiming(c, [], [])])
  }

  /** Deleting is idempotent: both have deleted it and are about to execute it. */
  function Doubled(c: Command, p: string, q: string): Mail {
    Raced(c, p, q).(bucket := map[], procs := map[p := Working([c]), q := Working([c])], removed := [(p, c.id), (q, c.id)])
  }

  lemma QueuedIsReachable(c: Command, p: string, q: string) returns (run: seq<Step>)
    requires p != q
    ensures Reaches(EMPTY, run, Queued(c, p, q))
  {
    hide Reaches;
    var m := EMPTY;
    run := [];
    Stay(m);
    Then(EMPTY, run, m, Start(p)); m, run := Apply(m, Start(p)), run + [Start(p)];
    Then(EMPTY, run, m, Start(q)); m, run := Apply(m, Start(q)), run + [Start(q)];
    Then(EMPTY, run, m, Send(c)); m, run := Apply(m, Send(c)), run + [Send(c)];
    assert m == Queued(c, p, q);
  }

  lemma RaceIsReachable(c: Command, p: string, q: string) returns (run: seq<Step>)
    requires p != q && c.readable && c.instance.None?
    ensures Reaches(EMPTY, run, Raced(c, p, q))
  {
    hide Reaches;
    run := QueuedIsReachable(c, p, q);
    var m, keys := Queued(c, p, q), [c.id];
    assert keys[1..] == [];
    Then(EMPTY, run, m, List(p, keys)); m, run := Apply(m, List(p, keys)), run + [List(p, keys)];
    Then(EMPTY, run, m, List(q, keys)); m, run := Apply(m, List(q, keys)), run + [List(q, keys)];
    Then(EMPTY, run, m, Fetch(p)); m, run := Apply(m, Fetch(p)), run + [Fetch(p)];
    Then(EMPTY, run, m, Fetch(q)); m, run := Apply(m, Fetch(q)), run + [Fetch(q)];
    assert m.procs == Raced(c, p, q).procs;
  }

  lemma BothDelete(c: Command, p: string, q: string) returns (run: seq<Step>)
    requires p != q && c.readable && c.instance.None?
    ensures Reaches(EMPTY, run, Doubled(c, p, q))
  {
    hide Reaches;
    run := RaceIsReachable(c, p, q);
    var m := Raced(c, p, q);
    Then(EMPTY, run, m, Delete(p)); m, run := Apply(m, Delete(p)), run + [Delete(p)];
    Then(EMPTY, run, m, Delete(q)); m, run := Apply(m, Delete(q)), run + [Delete(q)];
    Then(EMPTY, run, m, Finish(p, [c])); m, run := Apply(m, Finish(p, [c])), run + [Finish(p, [c])];
    Then(EMPTY, run, m, Finish(q, [c])); m, run := Apply(m, Finish(q, [c])), run + [Finish(q, [c])];
    assert m.bucket == map[] && m.procs == Doubled(c, p, q).procs && m.removed == Doubled(c, p, q).removed;
  }

  /** Any readable unaddressed command may be executed by each of any two processes. */
  lemma UnaddressedMayRunTwice(c: Command, p: string, q: string) returns (run: seq<Step>, m: Mail)
    requires p != q && c.readable && c.instance.None?
    ensures Reaches(EMPTY, run, m) && m.executed == [(p, c), (q, c)] && p in m.procs && q in m.procs
  {
    hide Reaches;
    run := BothDelete(c, p, q);
    m := Doubled(c, p, q);
    Then(EMPTY, run, m, Execute(p)); m, run := Apply(m, Execute(p)), run + [Execute(p)];
    Then(EMPTY, run, m, Execute(q)); m, run := Apply(m, Execute(q)), run + [Execute(q)];
  }

  /** In this run both processes, still alive at its end, execute the command. */
  ghost predicate RunsOnBoth(run: seq<Step>, c: Command, p: string, q: string) {
    Legal(EMPTY, run)
    && var m := Exec(EMPTY, run); p in m.procs && q in m.procs && (p, c) in m.executed && (q, c) in m.executed
  }

  /** In this run the command is executed twice, by whomever. */
  ghost predicate RunsTwice(run: seq<Step>, c: Command) {
    Legal(EMPTY, run)
    && exists i, j | 0 <= i < j < |Exec(EMPTY, run).executed| ::
         Exec(EMPTY, run).executed[i].1 == c && Exec(EMPTY, run).executed[j].1 == c
  }

  lemma OnlyUnaddressedRunTwice(run: seq<Step>, c: Command, p: string, q: string)
    requires p != q && (RunsOnBoth(run, c, p, q) || RunsTwice(run, c))
    ensures c.readable && c.instance.None?
  {
    EmptyOk(false);
    RunKeepsInv(EMPTY, run, false);
    var m := Exec(EMPTY, run);
    assert forall e | e in m.executed :: Genuine(m, e.0, e.1);
    if RunsTwice(run, c) {
      var i, j :| 0 <= i < j < |m.executed| && m.executed[i].1 == c && m.executed[j].1 == c;
      assert m.executed[i] in m.executed;
    }
  }

  /**
   * Exactly which commands can run twice: two given processes can both execute a command, and a
   * command can be executed twice at all, if and only if it opens and is addressed to nobody.
   */
  lemma RunsTwiceIff(c: Command, p: string, q: string)
    requires p != q
    ensures (exists run :: RunsOnBoth(run, c, p, q)) <==> c.readable && c.instance.None?
    ensures (exists run :: RunsTwice(run, c)) <==> c.readable && c.instance.None?
  {
    forall run | RunsOnBoth(run, c, p, q) || RunsTwice(run, c) ensures c.readable && c.instance.None? {
      OnlyUnaddressedRunTwice(run, c, p, q);
    }
    if c.readable && c.instance.None? {
      var run, m := UnaddressedMayRunTwice(c, p, q);
      assert m.executed[0] == (p, c) && m.executed[1] == (q, c);
      assert RunsOnBoth(run, c, p, q) && RunsTwice(run, c);
    }
  }

  // ---- Who can run what ----

  /** In this run the process executes the command. */
  ghost predicate RunsOn(run: seq<Step>, c: Command, p: string) {
    Legal(EMPTY, run) && (p, c) in Exec(EMPTY, run).executed
  }

  /** The process has listed the command sent to it. */
  function Listed(c: Command, p: string): Mail {
    Mail(map[c.id := c], map[p := Draining([c.id], [])], map[c.id := c], {p}, [], [])
  }

  lemma ListedIsReachable(c: Command, p: string) returns (run: seq<Step>)
    ensures Reaches(EMPTY, run, Listed(c, p))
  {
    hide Reaches;
    var m := EMPTY;
    run := [];
    Stay(m);
    Then(EMPTY, run, m, Start(p)); m, run := Apply(m, Start(p)), run + [Start(p)];
    Then(EMPTY, run, m, Send(c)); m, run := Apply(m, Send(c)), run + [Send(c)];
    Then(EMPTY, run, m, List(p, [c.id])); m, run := Apply(m, List(p, [c.id])), run + [List(p, [c.id])];
    assert m == Listed(c, p);
  }

  /** One process, one command: from sending it to the point of executing it. */
  lemma ClaimRun(c: Command, p: string) returns (run: seq<Step>, m: Mail)
    requires c.readable && (c.instance.None? || c.instance == Some(p))
    ensures Reaches(EMPTY, run, m) && m.procs == map[p := Working([c])] && m.executed == []
  {
    hide Reaches;
    run := ListedIsReachable(c, p);
    m := Listed(c, p);
    assert [c.id][1..] == [];
    Then(EMPTY, run, m, Fetch(p)); m, run := Apply(m, Fetch(p)), run + [Fetch(p)];
    Then(EMPTY, run, m, Delete(p)); m, run := Apply(m, Delete(p)), run + [Delete(p)];
    Then(EMPTY, run, m, Finish(p, [c])); m, run := Apply(m, Finish(p, [c])), run + [Finish(p, [c])];
    assert m.procs == map[p := Working([c])];
  }

  /** A process can execute a command if and only if it opens and is for nobody or for this very process. */
  lemma RunsOnIff(c: Command, p: string)
    ensures (exists run :: RunsOn(run, c, p)) <==> c.readable && (c.instance.None? || c.instance == Some(p))
  {
    forall run | RunsOn(run, c, p) ensures c.readable && (c.instance.None? || c.instance == Some(p)) {
      EmptyOk(false);
      RunKeepsInv(EMPTY, run, false);
      assert Genuine(Exec(EMPTY, run), p, c);
    }
    if c.readable && (c.instance.None? || c.instance == Some(p)) {
      var run, m := ClaimRun(c, p);
      Then(EMPTY, run, m, Execute(p));
      assert Apply(m, Execute(p)).executed == [(p, c)];
      assert RunsOn(run + [Execute(p)], c, p);
    }
  }

  // ---- One drain, undisturbed ----

  function CreatedAt(c: Command): int { c.createdAt }

  /** The commands a drain by `instance` claims out of `keys`, in listing order. */
  function Claims(objects: map<string, Command>, keys: seq<string>, instance: string): seq<Command> {
    if keys == [] then []
    else
      var rest := Claims(objects, keys[..|keys| - 1], instance);
      var k := keys[|keys| - 1];
      if Takes(objects, k, instance) then rest + [objects[k]] else rest
  }

  predicate Takes(objects: map<string, Command>, k: string, instance: string) {
    k in objects && objects[k].readable && Claimable(instance, objects[k])
  }

  /** What a drain leaves once it has dealt with `keys`: claimed commands and deleted unreadable ones are gone. */
  function Undrained(objects: map<string, Command>, keys: seq<string>, instance: string, del: string -> Protocol.Fate): map<string, Command> {
    map k | k in objects && !(k in keys && (Takes(objects, k, instance) || (!objects[k].readable && Protocol.TookEffect(del(k))))) ::
      objects[k]
  }

  datatype DrainError = ListFailed | GetFailed(key: string) | DeleteFailed(key: string)

  class CommandBox {
    var objects: map<string, Command>

    constructor (objects: map<string, Command>)
      ensures this.objects == objects
    {
      this.objects := objects;
    }

    /**
     * Drain the mailbox. `listing` is None when LIST fails; GET fails for `unreachable` keys, and a
     * listed key may be gone by then. A failed delete of a command ends the drain, that of an
     * unreadable object does not. What was claimed before an error is out of the bucket and not returned.
     */
    method DrainCommands(listing: Option<seq<string>>, instance: string, unreachable: set<string>, del: string -> Protocol.Fate)
        returns (r: Result<seq<Command>, DrainError>)
      requires listing.Some? ==> NoDuplicates(listing.value)
      modifies this
      ensures r.Ok? ==>
        && listing.Some? && (forall k | k in listing.value :: k !in unreachable)
        && r.value == SortBy(Claims(old(objects), listing.value, instance), CreatedAt)
        && Ordered(r.value, CreatedAt) && multiset(r.value) == multiset(Claims(old(objects), listing.value, instance))
        && (forall k | k in listing.value && Takes(old(objects), k, instance) :: del(k).Lands?)
        && objects == Undrained(old(objects), listing.value, instance, del)
      // Which commands those are: the readable ones under listed keys, for nobody or for this instance, each once.
      ensures r.Ok? ==>
        && (forall k | k in listing.value && k in old(objects) && old(objects)[k].readable
                       && (old(objects)[k].instance.None? || old(objects)[k].instance == Some(instance)) ::
              old(objects)[k] in r.value && k !in objects)
        && (forall c | c in r.value :: c.readable && (c.instance.None? || c.instance == Some(instance))
              && exists k :: k in listing.value && k in old(objects) && old(objects)[k] == c)
        && |r.value| == |set k | k in listing.value && k in old(objects) && old(objects)[k].readable
                               && (old(objects)[k].instance.None? || old(objects)[k].instance == Some(instance))|
      ensures forall k | k in old(objects) && old(objects)[k].readable
                         && old(objects)[k].instance.Some? && old(objects)[k].instance != Some(instance) ::
        k in objects && objects[k] == old(objects)[k]
      ensures r.Err? && r.error.ListFailed? ==> listing.None? && objects == old(objects)
      ensures r.Err? && !r.error.ListFailed? ==>
        && listing.Some? && r.error.key in listing.value
        && (r.error.GetFailed? ==> r.error.key in unreachable)
        && (r.error.DeleteFailed? ==> Takes(old(objects), r.error.key, instance) && !del(r.error.key).Lands?)
        && (exists n | 0 <= n < |listing.value| :: listing.value[n] == r.error.key
              && objects == Undrained(old(objects), listing.value[..n], instance, del)
                            - (if r.error.DeleteFailed? && Protocol.TookEffect(del(r.error.key)) then {r.error.key} else {}))
    {
      hide Claims, SortBy, Ordered;
      if listing.None? { return Err(ListFailed); }
      var keys := listing.value;
      var commands: seq<Command> := [];
      var i := 0;
      UndrainedStart(objects, instance, del);
      while i < |keys|
        invariant i <= |keys| && commands == Claims(old(objects), keys[..i], instance)
        invariant forall k | k in keys[..i] :: k !in unreachable && (Takes(old(objects), k, instance) ==> del(k).Lands?)
        invariant objects == Undrained(old(objects), keys[..i], instance, del)
      {
        var key := keys[i];
        UndrainedAfter(old(objects), keys, i, instance, del);
        ClaimsSnoc(old(objects), keys, i, instance);
        if key in unreachable {
          assert objects - {} == objects;
          return Err(GetFailed(key));
        }
        i := i + 1;
        if key !in objects { continue; }
        var command := objects[key];
        if !command.readable {
          if Protocol.TookEffect(del(key)) { objects := objects - {key}; }
        } else if command.instance.Some? && command.instance.value != instance {
        } else {
          if Protocol.TookEffect(del(key)) { objects := objects - {key}; }
          if !del(key).Lands? {
            assert keys[i - 1] == key && (!Protocol.TookEffect(del(key)) ==> objects - {} == objects);
            return Err(DeleteFailed(key));
          }
          commands := commands + [command];
        }
      }
      assert keys[..i] == keys;
      DrainReturns(old(objects), keys, instance, del);
      r := Ok(SortBy(commands, CreatedAt));
    }
  }

  lemma {:induction false} ClaimsMember(objects: map<string, Command>, keys: seq<string>, instance: string, c: Command)
    ensures c in Claims(objects, keys, instance) <==> exists k :: k in keys && Takes(objects, k, instance) && objects[k] == c
  {
    hide Takes;
    if keys != [] {
      var front, last := keys[..|keys| - 1], keys[|keys| - 1];
      ClaimsMember(objects, front, instance, c);
      assert keys == front + [last];
    }
  }

  function Taken(objects: map<string, Command>, keys: seq<string>, instance: string): set<string> {
    set k | k in keys && Takes(objects, k, instance)
  }

  lemma {:induction false} ClaimsCount(objects: map<string, Command>, keys: seq<string>, instance: string)
    requires NoDuplicates(keys)
    ensures |Claims(objects, keys, instance)| == |Taken(objects, keys, instance)|
  {
    hide Takes;
    if keys != [] {
      var front, last := keys[..|keys| - 1], keys[|keys| - 1];
      ClaimsCount(objects, front, instance);
      TakenSnoc(objects, front, last, instance);
      assert keys == front + [last];
    }
  }

  lemma TakenSnoc(objects: map<string, Command>, front: seq<string>, last: string, instance: string)
    requires NoDuplicates(front + [last])
    ensures var before, after := Taken(objects, front, instance), Taken(objects, front + [last], instance);
      && after == (if Takes(objects, last, instance) then before + {last} else before)
      && last !in before
  {
    hide Takes;
    assert (front + [last])[|front|] == last;
    forall i | 0 <= i < |front| ensures front[i] != last { assert (front + [last])[i] == front[i]; }
  }

  /** Which commands a drain claims, and that it claims each of them once. */
  lemma ClaimsAre(objects: map<string, Command>, keys: seq<string>, instance: string)
    requires NoDuplicates(keys)
    ensures forall k | k in keys && k in objects && objects[k].readable
                       && (objects[k].instance.None? || objects[k].instance == Some(instance)) ::
              objects[k] in Claims(objects, keys, instance)
    ensures forall c | c in Claims(objects, keys, instance) ::
              c.readable && (c.instance.None? || c.instance == Some(instance))
              && exists k :: k in keys && k in objects && objects[k] == c
    ensures |Claims(objects, keys, instance)|
         == |set k | k in keys && k in objects && objects[k].readable
                     && (objects[k].instance.None? || objects[k].instance == Some(instance))|
  {
    hide Claims;
    forall c ensures c in Claims(objects, keys, instance) <==> exists k :: k in keys && Takes(objects, k, instance) && objects[k] == c {
      ClaimsMember(objects, keys, instance, c);
    }
    ClaimsCount(objects, keys, instance);
    assert Taken(objects, keys, instance)
        == set k | k in keys && k in objects && objects[k].readable
                   && (objects[k].instance.None? || objects[k].instance == Some(instance));
  }

  lemma ClaimsSnoc(objects: map<string, Command>, keys: seq<string>, i: nat, instance: string)
    requires i < |keys|
    ensures keys[..i + 1] == keys[..i] + [keys[i]] && Claims(objects, [], instance) == []
    ensures Claims(objects, keys[..i + 1], instance)
         == Claims(objects, keys[..i], instance) + if Takes(objects, keys[i], instance) then [objects[keys[i]]] else []
  {
    assert keys[..i + 1][..i] == keys[..i];
  }

  /** What a drain that comes to its end returns, and what it leaves of the claimed commands. */
  lemma DrainReturns(objects: map<string, Command>, keys: seq<string>, instance: string, del: string -> Protocol.Fate)
    requires NoDuplicates(keys)
    ensures var r, rest := SortBy(Claims(objects, keys, instance), CreatedAt), Undrained(objects, keys, instance, del);
      && Ordered(r, CreatedAt) && multiset(r) == multiset(Claims(objects, keys, instance))
      && (forall k | k in keys && k in objects && objects[k].readable
                     && (objects[k].instance.None? || objects[k].instance == Some(instance)) ::
            objects[k] in r && k !in rest)
      && (forall c | c in r :: c.readable && (c.instance.None? || c.instance == Some(instance))
            && exists k :: k in keys && k in objects && objects[k] == c)
      && |r| == |set k | k in keys && k in objects && objects[k].readable
                         && (objects[k].instance.None? || objects[k].instance == Some(instance))|
  {
    hide Claims, SortBy, Ordered;
    SortBySorts(Claims(objects, keys, instance), CreatedAt);
    ClaimsAre(objects, keys, instance);
    SameCommands(Claims(objects, keys, instance), SortBy(Claims(objects, keys, instance), CreatedAt));
  }

  lemma SameCommands(s: seq<Command>, t: seq<Command>)
    requires multiset(s) == multiset(t)
    ensures |s| == |t| && forall c :: c in s <==> c in t
  {
    assert |multiset(s)| == |multiset(t)|;
    forall c ensures c in s <==> c in t { assert c in multiset(s) <==> c in multiset(t); }
  }

  lemma UndrainedStart(objects: map<string, Command>, instance: string, del: string -> Protocol.Fate)
    ensures Undrained(objects, [], instance, del) == objects && Claims(objects, [], instance) == []
  {
  }

  /** One more key: what is left of it, and what its turn removes. */
  lemma UndrainedAfter(objects: map<string, Command>, keys: seq<string>, i: nat, instance: string, del: string -> Protocol.Fate)
    requires NoDuplicates(keys) && i < |keys|
    ensures var rest, k := Undrained(objects, keys[..i], instance, del), keys[i];
      && (k in rest <==> k in objects) && (k in objects ==> rest[k] == objects[k])
      && Undrained(objects, keys[..i + 1], instance, del)
         == rest - if Takes(objects, k, instance) || (k in objects && !objects[k].readable && Protocol.TookEffect(del(k))) then {k} else {}
  {
    assert keys[..i + 1] == keys[..i] + [keys[i]];
    assert keys[i] !in keys[..i];
  }

  // ---- What an interrupted drain has claimed ----

  /** The process neither holds the command nor is about to. */
  predicate Free(ph: Phase, id: string) {
    (forall c | c in Held(ph) :: c.id != id) && (ph.Claiming? ==> ph.command.id != id)
  }

  /** Out of the bucket, and in the hands of no process. */
  predicate Dropped(m: Mail, id: string) {
    id in m.sent && id !in m.bucket && forall p | p in m.procs :: Free(m.procs[p], id)
  }

  /** What a fetch leads to is not the command either. */
  lemma FetchIsFree(m: Mail, id: string, p: string)
    requires p in m.procs && Free(m.procs[p], id) && Enabled(m, Fetch(p)) && id !in m.bucket
    requires forall k | k in m.bucket :: m.bucket[k].id == k
    ensures Free(Apply(m, Fetch(p)).procs[p], id)
  {
  }

  lemma FinishIsFree(m: Mail, id: string, p: string, queue: seq<Command>)
    requires p in m.procs && Free(m.procs[p], id) && Enabled(m, Finish(p, queue))
    ensures Free(Working(queue), id)
  {
    forall c | c in queue ensures c.id != id {
      assert c in multiset(queue) && c in Held(m.procs[p]);
    }
  }

  /** A process is still free of the command after a step, its own or another's. */
  lemma FreeStep(m: Mail, step: Step, id: string, p: string)
    requires Dropped(m, id) && Enabled(m, step) && p in Apply(m, step).procs
    requires forall k | k in m.bucket :: m.bucket[k].id == k
    ensures Free(Apply(m, step).procs[p], id)
  {
    if p in m.procs { assert Free(m.procs[p], id); }
    if step == Fetch(p) {
      hide Free, Fetched;
      FetchIsFree(m, id, p);
    } else if step.Finish? && step.p == p {
      FinishIsFree(m, id, p, step.queue);
    }
  }

  lemma DroppedStep(m: Mail, step: Step, id: string)
    requires Inv(m, false) && Dropped(m, id) && Enabled(m, step)
    ensures Dropped(Apply(m, step), id)
    ensures forall e | e in Apply(m, step).executed && e.1.id == id :: e in m.executed
  {
    hide PhaseOk, HistoryOk, Held;
    forall p | p in Apply(m, step).procs ensures Free(Apply(m, step).procs[p], id) {
      FreeStep(m, step, id, p);
    }
    ExecutesOther(m, step, id);
  }

  lemma ExecutesOther(m: Mail, step: Step, id: string)
    requires Dropped(m, id) && Enabled(m, step)
    ensures forall e | e in Apply(m, step).executed && e.1.id == id :: e in m.executed
  {
    if step.Execute? {
      assert Free(m.procs[step.p], id) && m.procs[step.p].queue[0] in Held(m.procs[step.p]);
    }
  }

  /** At most once is not at least once: a command claimed by a drain that fails is never executed. */
  lemma {:induction false} DroppedForGood(m: Mail, run: seq<Step>, id: string)
    requires Inv(m, false) && Dropped(m, id) && Legal(m, run)
    ensures Dropped(Exec(m, run), id)
    ensures forall e | e in Exec(m, run).executed && e.1.id == id :: e in m.executed
    decreases run
  {
    hide Inv, Dropped, Enabled, Apply;
    if run != [] {
      StepKeepsInv(m, run[0], false);
      DroppedStep(m, run[0], id);
      DroppedForGood(Apply(m, run[0]), run[1..], id);
    }
  }
}
