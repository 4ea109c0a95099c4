/**
 The host-wide queue in front of the full gate. Processes write request files, scan the queue
 under a lock, hold one of a fixed number of slot locks while they run, and may die at any point.
 Runs interleave the steps of all processes. A step reads one file or tries one lock. The end of a scan
 is several calls in one, made before the queue lock is let go; nobody else reads the queue or tries a slot before.
 A scan that fails lets go of the lock, of the request and of the slots it tried one after the other.
 */
module AdmissionQueue {
  import opened Wrappers
  import Text
  import Sorting

  type Pid = nat
  type Id = string

  datatype Class = CriticalReviewer | ActiveReviewer | ActiveWorker | BackgroundValidation | MainGate | ReleaseGate

  function Priority(c: Class): int {
    match c
    case CriticalReviewer => 40
    case ActiveReviewer => 30
    case ActiveWorker => 20
    case BackgroundValidation => 10
    case MainGate => 50
    case ReleaseGate => 50
  }

  datatype Request = Request(id: Id, pid: Pid, requestedNs: int, admissionClass: Class)

  // ----- Queue order -----

  predicate QueueLeq(a: Request, b: Request) {
    var p, q := Priority(a.admissionClass), Priority(b.admissionClass);
    p > q || (p == q && (a.requestedNs < b.requestedNs || (a.requestedNs == b.requestedNs && Text.Leq(a.id, b.id))))
  }

  predicate Precedes(a: Request, b: Request) {
    QueueLeq(a, b) && a.id != b.id
  }

  lemma QueueOrderIsTotal()
    ensures Sorting.TotalOrder(QueueLeq)
  {
    forall a, b ensures QueueLeq(a, b) || QueueLeq(b, a) { Text.LeqTotal(a.id, b.id); }
    forall a, b, c | QueueLeq(a, b) && QueueLeq(b, c) ensures QueueLeq(a, c) {
      if Text.Leq(a.id, b.id) && Text.Leq(b.id, c.id) { Text.LeqTransitive(a.id, b.id, c.id); }
    }
  }

  lemma PrecedesAsymmetric(a: Request, b: Request)
    ensures !(Precedes(a, b) && QueueLeq(b, a))
  {
    if Text.Leq(a.id, b.id) && Text.Leq(b.id, a.id) { Text.LeqAntisymmetric(a.id, b.id); }
  }

  function Position(ordered: seq<Request>, id: Id): Option<nat> {
    if ordered == [] then None
    else if ordered[0].id == id then Some(0)
    else match Position(ordered[1..], id) case None => None case Some(n) => Some(n + 1)
  }

  lemma {:induction false} PositionIs(ordered: seq<Request>, id: Id, j: nat)
    requires j < |ordered| && ordered[j].id == id
    requires forall i :: 0 <= i < j ==> ordered[i].id != id
    ensures Position(ordered, id) == Some(j)
  {
    if j > 0 { PositionIs(ordered[1..], id, j - 1); }
  }

  predicate DistinctIds(rows: seq<Request>) {
    forall i, j :: 0 <= i < j < |rows| ==> rows[i].id != rows[j].id
  }

  function Before(rows: seq<Request>, own: Request): set<Id> {
    set r | r in rows && Precedes(r, own) :: r.id
  }

  function Ids(rows: seq<Request>): set<Id> {
    set r | r in rows :: r.id
  }

  lemma {:induction false} IdsCount(rows: seq<Request>)
    requires DistinctIds(rows)
    ensures |Ids(rows)| == |rows|
  {
    if rows != [] {
      var n := |rows| - 1;
      IdsCount(rows[..n]);
      assert rows == rows[..n] + [rows[n]];
      assert Ids(rows) == Ids(rows[..n]) + {rows[n].id};
    }
  }

  lemma SortedIds(rows: seq<Request>)
    requires DistinctIds(rows)
    ensures DistinctIds(Sorting.Sort(QueueLeq, rows))
  {
    var sorted := Sorting.Sort(QueueLeq, rows);
    assert Sorting.Distinct(rows);
    Sorting.SortDistinct(QueueLeq, rows);
    Sorting.SortMembers(QueueLeq, rows);
    forall i, j | 0 <= i < j < |sorted| ensures sorted[i].id != sorted[j].id {
      assert sorted[i] in sorted && sorted[j] in sorted && sorted[i] != sorted[j];
    }
  }

  /** In a sorted queue the requests in front of one are exactly those that precede it. */
  lemma FrontPrecedes(sorted: seq<Request>, own: Request, j: nat)
    requires Sorting.Ascending(QueueLeq, sorted) && DistinctIds(sorted) && j < |sorted| && sorted[j] == own
    ensures Before(sorted, own) == Ids(sorted[..j])
  {
    forall i | 0 <= i < |sorted| ensures Precedes(sorted[i], own) <==> i < j {
      if i > j { PrecedesAsymmetric(sorted[i], own); }
    }
    hide Precedes;
    forall id | id in Before(sorted, own) ensures id in Ids(sorted[..j]) {
      var r :| r in sorted && Precedes(r, own) && r.id == id;
      var i :| 0 <= i < |sorted| && sorted[i] == r;
      assert sorted[..j][i] == r;
    }
    forall id | id in Ids(sorted[..j]) ensures id in Before(sorted, own) {
      var r :| r in sorted[..j] && r.id == id;
      var i :| 0 <= i < j && sorted[..j][i] == r;
      assert sorted[i] in sorted;
    }
  }

  /** A request's position in the sorted queue is the number of requests that precede it. */
  lemma PositionCounts(rows: seq<Request>, own: Request)
    requires DistinctIds(rows) && own in rows
    ensures Position(Sorting.Sort(QueueLeq, rows), own.id) == Some(|Before(rows, own)|)
  {
    hide Precedes, QueueLeq;
    var sorted := Sorting.Sort(QueueLeq, rows);
    Sorting.SortMembers(QueueLeq, rows);
    QueueOrderIsTotal();
    Sorting.SortAscending(QueueLeq, rows);
    SortedIds(rows);
    assert own in sorted;
    var j :| 0 <= j < |sorted| && sorted[j] == own;
    PositionIs(sorted, own.id, j);
    FrontPrecedes(sorted, own, j);
    assert Before(rows, own) == Before(sorted, own);
    IdsCount(sorted[..j]);
  }

  // ----- The host -----

  /**
   What a process is doing about the gate. A scanner has read the first `read` of the listed files
   into `rows`, has tried the first `tried` slots and holds those it found free. One whose scan failed has let the
   queue lock go; it still has to take its request back, and to let go of the slots it tried.
   */
  datatype Phase =
    | Waiting(id: Id)
    | Scanning(id: Id, listing: seq<Id>, read: nat, rows: seq<Request>, tried: nat, held: seq<nat>)
    | Running(slot: nat)
    | Failing(id: Id, held: seq<nat>)
    | Letting(held: seq<nat>)

  /** `budgets` is what each process last asked the gate with; no process tries a slot beyond its own. */
  datatype Host = Host(
    alive: set<Pid>,
    issued: set<Id>,
    queue: map<Id, Request>,
    lock: Option<Pid>,
    slots: seq<Option<Pid>>,
    phases: map<Pid, Phase>,
    budgets: map<Pid, nat>)

  datatype Step =
    | Start(pid: Pid)
    | Enqueue(pid: Pid, request: Request, budget: nat)
    | Lock(pid: Pid, listing: seq<Id>)
    | ReadRow(pid: Pid)
    | TrySlot(pid: Pid)
    | Decide(pid: Pid)
    | Leave(pid: Pid)
    | Abort(pid: Pid)
    | Withdraw(pid: Pid)
    | Release(pid: Pid)
    | Die(pid: Pid)

  predicate IsListing(listing: seq<Id>, ids: set<Id>) {
    && (forall i, j :: 0 <= i < j < |listing| ==> Text.Leq(listing[i], listing[j]) && listing[i] != listing[j])
    && (forall id :: id in listing ==> id in ids) && (forall id :: id in ids ==> id in listing)
  }

  predicate ScansAs(s: Host, p: Pid) {
    p in s.phases && s.phases[p].Scanning? && s.lock == Some(p)
  }

  function BudgetOf(s: Host, p: Pid): nat {
    if p in s.budgets then s.budgets[p] else 0
  }

  predicate Enabled(s: Host, step: Step) {
    var p := step.pid;
    match step
    case Start(_) => p !in s.alive
    case Enqueue(_, r, budget) =>
      p in s.alive && p !in s.phases && r.pid == p && r.id !in s.issued && 1 <= budget <= |s.slots|
    case Lock(_, listing) => p in s.phases && s.phases[p].Waiting? && s.lock.None? && IsListing(listing, s.queue.Keys)
    case ReadRow(_) => ScansAs(s, p) && s.phases[p].read < |s.phases[p].listing|
    case TrySlot(_) =>
      ScansAs(s, p) && s.phases[p].read == |s.phases[p].listing| && s.phases[p].tried < BudgetOf(s, p) <= |s.slots|
    case Decide(_) => ScansAs(s, p) && s.phases[p].read == |s.phases[p].listing| && s.phases[p].tried == BudgetOf(s, p)
    case Leave(_) => p in s.phases && s.phases[p].Running?
    case Abort(_) => p in s.phases && (s.phases[p].Waiting? || s.phases[p].Scanning?)
    case Withdraw(_) => p in s.phases && s.phases[p].Failing?
    case Release(_) => p in s.phases && s.phases[p].Letting?
    case Die(_) => p in s.alive
  }

  function Freed(slots: seq<Option<Pid>>, p: Pid): (r: seq<Option<Pid>>)
    ensures |r| == |slots|
  {
    seq(|slots|, k requires 0 <= k < |slots| => if slots[k] == Some(p) then None else slots[k])
  }

  /** Frees every slot `p` holds except `kept`. */
  function FreedBut(slots: seq<Option<Pid>>, p: Pid, kept: nat): (r: seq<Option<Pid>>)
    ensures |r| == |slots|
  {
    seq(|slots|, k requires 0 <= k < |slots| => if slots[k] == Some(p) && k != kept then None else slots[k])
  }

  function ReadRowOf(s: Host, p: Pid): Host
    requires Enabled(s, ReadRow(p))
  {
    var ph := s.phases[p];
    var id := ph.listing[ph.read];
    if id in s.queue && s.queue[id].pid in s.alive then
      s.(phases := s.phases[p := ph.(read := ph.read + 1, rows := ph.rows + [s.queue[id]])])
    else
      s.(queue := s.queue - {id}, phases := s.phases[p := ph.(read := ph.read + 1)])
  }

  function TrySlotOf(s: Host, p: Pid): Host
    requires Enabled(s, TrySlot(p))
  {
    var ph := s.phases[p];
    var k := ph.tried;
    if s.slots[k].None? then
      s.(slots := s.slots[k := Some(p)], phases := s.phases[p := ph.(tried := k + 1, held := ph.held + [k])])
    else
      s.(phases := s.phases[p := ph.(tried := k + 1)])
  }

  /** The slot a scanner takes, if it is admitted. */
  function Admission(ph: Phase): (slot: Option<nat>)
    requires ph.Scanning?
    ensures slot.Some? ==> slot.value in ph.held
  {
    match Position(Sorting.Sort(QueueLeq, ph.rows), ph.id)
    case None => None
    case Some(n) => if n < |ph.held| then Some(ph.held[n]) else None
  }

  function DecideOf(s: Host, p: Pid): Host
    requires Enabled(s, Decide(p))
  {
    var ph := s.phases[p];
    match Admission(ph)
    case Some(k) =>
      s.(queue := s.queue - {ph.id}, slots := FreedBut(s.slots, p, k), lock := None,
        phases := s.phases[p := Running(k)])
    case None =>
      s.(slots := Freed(s.slots, p), lock := None, phases := s.phases[p := Waiting(ph.id)])
  }

  function Next(s: Host, step: Step): Host {
    var p := step.pid;
    if !Enabled(s, step) then s
    else match step
      case Start(_) => s.(alive := s.alive + {p})
      case Enqueue(_, r, budget) =>
        s.(issued := s.issued + {r.id}, queue := s.queue[r.id := r], phases := s.phases[p := Waiting(r.id)],
           budgets := s.budgets[p := budget])
      case Lock(_, listing) =>
        s.(lock := Some(p), phases := s.phases[p := Scanning(s.phases[p].id, listing, 0, [], 0, [])])
      case ReadRow(_) => ReadRowOf(s, p)
      case TrySlot(_) => TrySlotOf(s, p)
      case Decide(_) => DecideOf(s, p)
      case Leave(_) => s.(slots := Freed(s.slots, p), phases := s.phases - {p})
      case Abort(_) =>
        if s.phases[p].Waiting? then s.(queue := s.queue - {s.phases[p].id}, phases := s.phases - {p})
        else s.(lock := None, phases := s.phases[p := Failing(s.phases[p].id, s.phases[p].held)])
      case Withdraw(_) =>
        s.(queue := s.queue - {s.phases[p].id}, phases := s.phases[p := Letting(s.phases[p].held)])
      case Release(_) => s.(slots := Freed(s.slots, p), phases := s.phases - {p})
      case Die(_) =>
        s.(alive := s.alive - {p}, slots := Freed(s.slots, p), phases := s.phases - {p},
           lock := if s.lock == Some(p) then None else s.lock)
  }

  function Run(s: Host, steps: seq<Step>): Host {
    if steps == [] then s else Next(Run(s, steps[..|steps| - 1]), steps[|steps| - 1])
  }

  /** A host on which nobody has asked for the gate yet. */
  function Fresh(alive: set<Pid>, slots: nat): Host {
    Host(alive, {}, map[], None, seq(slots, _ => None), map[], map[])
  }

  // ----- What every step keeps -----

  /** The queue lock is held by the one process that scans. */
  ghost predicate LockOk(s: Host) {
    && s.phases.Keys <= s.alive
    && forall p :: s.lock == Some(p) <==> p in s.phases && s.phases[p].Scanning?
  }

  /** `p` has slot `k` for as long as it likes: it runs there, or its scan failed and it has not let go yet. */
  predicate Keeps(s: Host, p: Pid, k: nat) {
    p in s.phases && match s.phases[p]
      case Running(slot) => slot == k
      case Failing(_, held) => k in held
      case Letting(held) => k in held
      case _ => false
  }

  ghost predicate Holds(s: Host, p: Pid, k: nat) {
    p in s.phases && if s.phases[p].Scanning? then k in s.phases[p].held else Keeps(s, p, k)
  }

  /** A slot is locked by exactly the process that runs in it, or is trying it. */
  ghost predicate SlotsOk(s: Host) {
    && (forall k: nat, p: Pid :: k < |s.slots| ==> (s.slots[k] == Some(p) <==> Holds(s, p, k)))
    && (forall p: Pid, k: nat :: Holds(s, p, k) ==> k < BudgetOf(s, p))
    && (forall p :: p in s.phases ==> BudgetOf(s, p) <= |s.slots|)
  }

  predicate ScanOk(ph: Phase, budget: nat) {
    ph.Scanning? ==>
      && ph.read <= |ph.listing| && ph.tried <= budget
      && (forall i, j :: 0 <= i < j < |ph.held| ==> ph.held[i] < ph.held[j])
      && (forall k :: k in ph.held ==> k < ph.tried)
      && (forall i, j :: 0 <= i < j < |ph.listing| ==> ph.listing[i] != ph.listing[j])
      && DistinctIds(ph.rows)
      && (forall r :: r in ph.rows ==> r.id in ph.listing[..ph.read])
  }

  predicate ScansOk(s: Host) {
    forall p :: p in s.phases ==> ScanOk(s.phases[p], BudgetOf(s, p))
  }

  predicate Queued(ph: Phase) {
    ph.Waiting? || ph.Scanning? || ph.Failing?
  }

  /** A waiting process's request file is in the queue, and is its own. */
  predicate QueueOk(s: Host) {
    && s.queue.Keys <= s.issued
    && (forall id :: id in s.queue ==> s.queue[id].id == id)
    && (forall p :: p in s.phases && Queued(s.phases[p]) ==>
          s.phases[p].id in s.queue && s.queue[s.phases[p].id].pid == p)
  }

  /** A scanner has noted every request it has come to that is still in the queue. */
  predicate SeesAll(s: Host, ph: Phase) {
    ph.Scanning? ==>
      && ph.id in ph.listing
      && (forall id :: id in ph.listing ==> id in s.issued)
      && ph.read <= |ph.listing|
      && forall i :: 0 <= i < ph.read && ph.listing[i] in s.queue ==> s.queue[ph.listing[i]] in ph.rows
  }

  ghost predicate AllSee(s: Host) {
    forall p :: p in s.phases ==> SeesAll(s, s.phases[p])
  }

  ghost predicate Valid(s: Host) {
    LockOk(s) && SlotsOk(s) && ScansOk(s) && QueueOk(s) && AllSee(s)
  }

  lemma LockKept(s: Host, step: Step)
    requires LockOk(s)
    ensures LockOk(Next(s, step))
  {
  }

  lemma TrySlotKept(s: Host, p: Pid)
    requires ScansOk(s) && Enabled(s, TrySlot(p))
    ensures ScanOk(TrySlotOf(s, p).phases[p], BudgetOf(s, p))
  {
    var held := s.phases[p].held;
    assert forall i :: 0 <= i < |held| ==> held[i] in held;
  }

  lemma TrySlotSlots(s: Host, p: Pid)
    requires SlotsOk(s) && ScansOk(s) && Enabled(s, TrySlot(p))
    ensures SlotsOk(TrySlotOf(s, p))
  {
    var after, tried := TrySlotOf(s, p), s.phases[p].tried;
    forall q: Pid, k: nat ensures Holds(after, q, k) <==> Holds(s, q, k) || (q == p && k == tried && s.slots[k].None?) {
    }
  }

  lemma DecideSlots(s: Host, p: Pid)
    requires SlotsOk(s) && Enabled(s, Decide(p))
    ensures SlotsOk(DecideOf(s, p))
  {
    var after := DecideOf(s, p);
    var slot := Admission(s.phases[p]);
    hide Admission;
    if slot.Some? { assert Holds(s, p, slot.value); }
    forall q: Pid, k: nat ensures Holds(after, q, k) <==> (if q == p then slot == Some(k) else Holds(s, q, k)) {
    }
  }

  lemma FreedSlots(s: Host, p: Pid, after: Host)
    requires SlotsOk(s) && after.slots == Freed(s.slots, p) && after.phases == s.phases - {p}
      && after.budgets == s.budgets
    ensures SlotsOk(after)
  {
    forall q: Pid, k: nat ensures Holds(after, q, k) <==> q != p && Holds(s, q, k) {
    }
  }

  lemma SameHoldings(s: Host, after: Host)
    requires SlotsOk(s) && after.slots == s.slots && forall q: Pid, k: nat :: Holds(after, q, k) <==> Holds(s, q, k)
    requires forall q :: q in after.phases ==>
      if q in s.phases then BudgetOf(after, q) == BudgetOf(s, q) else BudgetOf(after, q) <= |s.slots|
    ensures SlotsOk(after)
  {
    forall q: Pid, k: nat | Holds(after, q, k) ensures k < BudgetOf(after, q) {
      assert Holds(s, q, k);
    }
  }

  lemma SlotsKept(s: Host, step: Step)
    requires SlotsOk(s) && ScansOk(s)
    ensures SlotsOk(Next(s, step))
  {
    hide TrySlotOf, DecideOf, SlotsOk;
    if Enabled(s, step) {
      match step
      case TrySlot(p) => TrySlotSlots(s, p);
      case Decide(p) => DecideSlots(s, p);
      case Leave(p) => FreedSlots(s, p, Next(s, step));
      case Release(p) => FreedSlots(s, p, Next(s, step));
      case Die(p) => FreedSlots(s, p, Next(s, step));
      case _ => SameHoldings(s, Next(s, step));
    }
  }

  lemma ReadRowKept(s: Host, p: Pid)
    requires ScansOk(s) && QueueOk(s) && Enabled(s, ReadRow(p))
    ensures ScanOk(ReadRowOf(s, p).phases[p], BudgetOf(s, p))
  {
    var ph, after := s.phases[p], ReadRowOf(s, p).phases[p];
    var id := ph.listing[ph.read];
    assert ph.listing[..ph.read + 1] == ph.listing[..ph.read] + [id];
    assert id !in ph.listing[..ph.read];
  }

  lemma LockScan(s: Host, p: Pid, listing: seq<Id>)
    requires Enabled(s, Lock(p, listing))
    ensures ScanOk(Next(s, Lock(p, listing)).phases[p], BudgetOf(s, p))
  {
  }

  /** A step changes the phase of its own process only, and a scan's budget never. */
  lemma OwnPhase(s: Host, step: Step)
    requires Enabled(s, step)
    ensures var after := Next(s, step);
      && (forall q :: q in after.phases && q != step.pid ==>
            q in s.phases && after.phases[q] == s.phases[q] && BudgetOf(after, q) == BudgetOf(s, q))
      && (step.pid in after.phases && after.phases[step.pid].Scanning? ==>
            (step.Lock? || step.ReadRow? || step.TrySlot? || after.phases[step.pid] == s.phases[step.pid])
            && step.pid in s.phases && BudgetOf(after, step.pid) == BudgetOf(s, step.pid))
      && (step.ReadRow? ==> after == ReadRowOf(s, step.pid)) && (step.TrySlot? ==> after == TrySlotOf(s, step.pid))
  {
  }

  lemma ScansKept(s: Host, step: Step)
    requires ScansOk(s) && QueueOk(s)
    ensures ScansOk(Next(s, step))
  {
    if Enabled(s, step) {
      OwnPhase(s, step);
      match step {
        case Lock(p, listing) => LockScan(s, p, listing);
        case ReadRow(p) => ReadRowKept(s, p);
        case TrySlot(p) => TrySlotKept(s, p);
        case _ =>
      }
      hide Next, QueueOk, ReadRowOf, TrySlotOf;
    }
  }

  lemma ReadRowQueue(s: Host, p: Pid)
    requires QueueOk(s) && LockOk(s) && Enabled(s, ReadRow(p))
    ensures QueueOk(ReadRowOf(s, p))
  {
  }

  lemma DecideQueue(s: Host, p: Pid)
    requires QueueOk(s) && Enabled(s, Decide(p))
    ensures QueueOk(DecideOf(s, p))
  {
    hide Admission;
  }

  lemma QueueKept(s: Host, step: Step)
    requires QueueOk(s) && LockOk(s)
    ensures QueueOk(Next(s, step))
  {
    hide ReadRowOf, DecideOf, LockOk;
    if Enabled(s, step) {
      match step
      case ReadRow(p) => ReadRowQueue(s, p);
      case Decide(p) => DecideQueue(s, p);
      case _ =>
    }
  }

  lemma SightKept(s: Host, step: Step)
    requires AllSee(s) && QueueOk(s) && LockOk(s)
    ensures AllSee(Next(s, step))
  {
  }

  lemma NextKeeps(s: Host, step: Step)
    requires Valid(s)
    ensures Valid(Next(s, step)) && |Next(s, step).slots| == |s.slots|
  {
    LockKept(s, step);
    SlotsKept(s, step);
    ScansKept(s, step);
    QueueKept(s, step);
    SightKept(s, step);
    SlotCountKept(s, step);
  }

  lemma SlotCountKept(s: Host, step: Step)
    ensures |Next(s, step).slots| == |s.slots|
  {
  }

  lemma FreshIsValid(alive: set<Pid>, budget: nat)
    ensures Valid(Fresh(alive, budget))
  {
  }

  /** Every interleaving of every process's steps, deaths included, keeps all of it. */
  lemma {:induction false} RunKeeps(s: Host, steps: seq<Step>)
    requires Valid(s)
    ensures Valid(Run(s, steps)) && |Run(s, steps).slots| == |s.slots|
  {
    hide Valid, Next;
    if steps != [] {
      RunKeeps(s, steps[..|steps| - 1]);
      NextKeeps(Run(s, steps[..|steps| - 1]), steps[|steps| - 1]);
    }
  }

  // ----- Never more than the budget inside -----

  function Inside(s: Host): set<Pid> {
    set p | p in s.phases && s.phases[p].Running?
  }

  function Holders(slots: seq<Option<Pid>>): set<Pid> {
    set o | o in slots && o.Some? :: o.value
  }

  lemma {:induction false} HoldersBounded(slots: seq<Option<Pid>>)
    ensures |Holders(slots)| <= |slots|
  {
    if slots != [] {
      var n := |slots| - 1;
      HoldersBounded(slots[..n]);
      assert slots == slots[..n] + [slots[n]];
      if slots[n].Some? {
        assert Holders(slots) == Holders(slots[..n]) + {slots[n].value};
      } else {
        assert Holders(slots) == Holders(slots[..n]);
      }
    }
  }

  /** The processes inside that asked for no more than `budget`. */
  function InsideWithin(s: Host, budget: nat): set<Pid> {
    set p | p in s.phases && s.phases[p].Running? && BudgetOf(s, p) <= budget
  }

  lemma InsideBounded(s: Host, budget: nat)
    requires SlotsOk(s) && budget <= |s.slots|
    ensures |InsideWithin(s, budget)| <= budget
  {
    var slots := s.slots[..budget];
    forall p | p in InsideWithin(s, budget) ensures p in Holders(slots) {
      var k := s.phases[p].slot;
      assert Holds(s, p, k);
      assert slots[k] in slots;
    }
    HoldersBounded(slots);
    Sorting.SubsetCount(InsideWithin(s, budget), Holders(slots));
  }

  /**
   Starting from an idle host, each process inside has a slot of its own, and for every budget at most that many
   of the processes that asked with it or less are ever inside; with a common budget, at most that many in all.
   */
  lemma BudgetKept(alive: set<Pid>, slots: nat, steps: seq<Step>, budget: nat)
    requires budget <= slots
    ensures var s := Run(Fresh(alive, slots), steps);
      && |InsideWithin(s, budget)| <= budget && |Inside(s)| <= slots
      && ((forall p :: p in Inside(s) ==> BudgetOf(s, p) == budget) ==> |Inside(s)| <= budget)
      && (forall p, q :: p in Inside(s) && q in Inside(s) && p != q ==> s.phases[p].slot != s.phases[q].slot)
  {
    FreshIsValid(alive, slots);
    RunKeeps(Fresh(alive, slots), steps);
    var s := Run(Fresh(alive, slots), steps);
    InsideBounded(s, budget);
    InsideBounded(s, slots);
    assert Inside(s) == InsideWithin(s, slots);
    if forall p :: p in Inside(s) ==> BudgetOf(s, p) == budget { assert Inside(s) == InsideWithin(s, budget); }
    forall p, q | p in Inside(s) && q in Inside(s) && p != q ensures s.phases[p].slot != s.phases[q].slot {
      assert Holds(s, p, s.phases[p].slot) && Holds(s, q, s.phases[q].slot);
    }
  }

  // ----- Who is admitted -----

  /** Live requests ahead of `id`. */
  function Ahead(s: Host, id: Id): set<Id>
    requires id in s.queue
  {
    set j | j in s.queue && s.queue[j].pid in s.alive && Precedes(s.queue[j], s.queue[id])
  }

  predicate Taken(s: Host, k: nat) {
    exists p :: p in s.phases.Keys && Keeps(s, p, k)
  }

  /** Slots nobody keeps; a scanner may be trying some of them. */
  function Open(s: Host): set<nat> {
    set k: nat | k < |s.slots| && !Taken(s, k)
  }

  function Members(held: seq<nat>): set<nat> {
    set k | k in held
  }

  function Held(ph: Phase): set<nat>
    requires ph.Scanning?
  {
    Members(ph.held)
  }

  lemma {:induction false} DistinctCount(held: seq<nat>)
    requires forall i, j :: 0 <= i < j < |held| ==> held[i] != held[j]
    ensures |Members(held)| == |held|
  {
    if held != [] {
      var n := |held| - 1;
      DistinctCount(held[..n]);
      assert held == held[..n] + [held[n]];
      assert Members(held) == Members(held[..n]) + {held[n]};
    }
  }

  lemma OwnRow(s: Host, p: Pid)
    requires Valid(s) && Enabled(s, Decide(p))
    ensures var ph := s.phases[p];
      ph.id in s.queue && s.queue[ph.id].id == ph.id && s.queue[ph.id] in ph.rows
  {
    var ph := s.phases[p];
    assert SeesAll(s, ph);
    var i :| 0 <= i < |ph.listing| && ph.listing[i] == ph.id;
  }

  lemma AheadRead(s: Host, p: Pid)
    requires Valid(s) && Enabled(s, Decide(p)) && s.phases[p].id in s.queue
    ensures var ph := s.phases[p];
      forall id :: id in Ahead(s, ph.id) && id in ph.listing ==> id in Before(ph.rows, s.queue[ph.id])
  {
    hide Precedes;
    var ph := s.phases[p];
    assert SeesAll(s, ph);
    forall id | id in Ahead(s, ph.id) && id in ph.listing ensures id in Before(ph.rows, s.queue[ph.id]) {
      var i :| 0 <= i < |ph.listing| && ph.listing[i] == id;
      assert s.queue[id] in ph.rows && s.queue[id].id == id;
    }
  }

  lemma HeldIsOpen(s: Host, p: Pid)
    requires SlotsOk(s) && p in s.phases && s.phases[p].Scanning?
    ensures Held(s.phases[p]) <= OpenTo(s, BudgetOf(s, p))
  {
    forall k | k in Held(s.phases[p]) ensures k in OpenTo(s, BudgetOf(s, p)) {
      assert Holds(s, p, k);
      forall q | q in s.phases.Keys ensures !Keeps(s, q, k) {
        assert Keeps(s, q, k) ==> Holds(s, q, k);
      }
    }
  }

  /**
   The decision, at any point of any run. A scanner's own request is always among the rows it read. It is
   admitted exactly when fewer of those rows precede it than it holds slots; they include every
   request that was listed, still waits and is alive, and nobody runs in a slot it holds, which its budget covers.
   */
  lemma DecideExact(s: Host, p: Pid)
    requires Valid(s) && Enabled(s, Decide(p))
    ensures var ph := s.phases[p];
      && ph.id in s.queue
      && (Next(s, Decide(p)).phases[p].Running? <==> |Before(ph.rows, s.queue[ph.id])| < |Held(ph)|)
      && (forall id :: id in Ahead(s, ph.id) && id in ph.listing ==> id in Before(ph.rows, s.queue[ph.id]))
      && Held(ph) <= OpenTo(s, BudgetOf(s, p))
  {
    OwnRow(s, p);
    AheadRead(s, p);
    HeldIsOpen(s, p);
    ScanCounts(s, p);
  }

  lemma ScanCounts(s: Host, p: Pid)
    requires ScansOk(s) && Enabled(s, Decide(p))
    requires s.phases[p].id in s.queue && s.queue[s.phases[p].id].id == s.phases[p].id
    requires s.queue[s.phases[p].id] in s.phases[p].rows
    ensures var ph := s.phases[p];
      Next(s, Decide(p)).phases[p].Running? <==> |Before(ph.rows, s.queue[ph.id])| < |Held(ph)|
  {
    hide Before, Sorting.Sort, Freed, FreedBut;
    var ph := s.phases[p];
    assert ScanOk(ph, BudgetOf(s, p));
    PositionCounts(ph.rows, s.queue[ph.id]);
    DistinctCount(ph.held);
  }

  // ----- One admission and the others -----

  /** The open slots a process with this budget would try. */
  function OpenTo(s: Host, budget: nat): set<nat> {
    set k | k in Open(s) && k < budget
  }

  /** The open slots the process of a queued request would try. */
  function Reach(s: Host, id: Id): set<nat>
    requires id in s.queue
  {
    OpenTo(s, BudgetOf(s, s.queue[id].pid))
  }

  /** Whether `id` would be admitted by a scan that nothing disturbs. */
  predicate Admissible(s: Host, id: Id) {
    id in s.queue && s.queue[id].pid in s.alive && |Ahead(s, id)| < |Reach(s, id)|
  }

  /** Every live process with a queued request asked with the same budget, that of all the slots. */
  ghost predicate OneBudget(s: Host) {
    forall id :: id in s.queue && s.queue[id].pid in s.alive ==> BudgetOf(s, s.queue[id].pid) == |s.slots|
  }

  predicate LeavesOthers(s: Host, after: Host, id: Id) {
    forall j :: j in s.queue.Keys && j != id && Admissible(s, j) ==> Admissible(after, j)
  }

  /** Slot `k` is within the reach of `j`, which can spare no slot. */
  predicate NeedsSlot(s: Host, k: nat, j: Id)
    requires j in s.queue
  {
    k < BudgetOf(s, s.queue[j].pid) && |Ahead(s, j)| + 1 == |Reach(s, j)|
  }

  /** `after` is `s` with `id` gone from the queue and slot `k` in use. */
  ghost predicate Admits(s: Host, after: Host, id: Id, k: nat) {
    && id in s.queue && s.queue[id].pid in s.alive
    && after.queue == s.queue - {id} && after.alive == s.alive && after.budgets == s.budgets
    && |after.slots| == |s.slots| && k in Open(s) && Open(after) == Open(s) - {k}
  }

  lemma AheadTransitive(s: Host, a: Id, b: Id)
    requires QueueOk(s) && a in s.queue && b in s.queue && a in Ahead(s, b)
    ensures Ahead(s, a) <= Ahead(s, b) - {a}
  {
    QueueOrderIsTotal();
    forall j | j in Ahead(s, a) ensures j in Ahead(s, b) && j != a {
      PrecedesAsymmetric(s.queue[a], s.queue[b]);
      assert s.queue[j].id == j && s.queue[a].id == a && s.queue[b].id == b;
    }
  }

  lemma OneAhead(s: Host, a: Id, b: Id)
    requires QueueOk(s) && a in s.queue && b in s.queue && a != b
    requires s.queue[a].pid in s.alive && s.queue[b].pid in s.alive
    ensures a in Ahead(s, b) <==> b !in Ahead(s, a)
  {
    QueueOrderIsTotal();
    PrecedesAsymmetric(s.queue[a], s.queue[b]);
    PrecedesAsymmetric(s.queue[b], s.queue[a]);
    assert QueueLeq(s.queue[a], s.queue[b]) || QueueLeq(s.queue[b], s.queue[a]);
  }

  lemma AheadAfter(s: Host, after: Host, id: Id, k: nat, j: Id)
    requires Admits(s, after, id, k) && j in s.queue && j != id
    ensures j in after.queue && Ahead(after, j) == Ahead(s, j) - {id}
    ensures Reach(after, j) == Reach(s, j) - {k}
    ensures k in Reach(s, j) <==> k < BudgetOf(s, s.queue[j].pid)
  {
    hide Open, Ahead;
    AheadWithout(s, after, id, j);
  }

  lemma AheadWithout(s: Host, after: Host, id: Id, j: Id)
    requires id in s.queue && after.queue == s.queue - {id} && after.alive == s.alive && j in s.queue && j != id
    ensures Ahead(after, j) == Ahead(s, j) - {id}
  {
  }

  /** Another admissible request stays so unless it is ahead and needs the very slot that is taken. */
  lemma OtherAfter(s: Host, after: Host, id: Id, k: nat, j: Id)
    requires QueueOk(s) && Admits(s, after, id, k) && j != id && Admissible(s, j)
    ensures Admissible(after, j) <==> !(j in Ahead(s, id) && NeedsSlot(s, k, j))
  {
    hide Precedes, Open, OpenTo, Ahead, Reach;
    AheadAfter(s, after, id, k, j);
    OneAhead(s, id, j);
  }

  /** Among the live requests ahead of `id` there is one at every place in the queue. */
  lemma {:induction false} PlaceTaken(s: Host, id: Id, n: nat) returns (j: Id)
    requires QueueOk(s) && id in s.queue && n < |Ahead(s, id)|
    ensures j in Ahead(s, id) && |Ahead(s, j)| == n
    decreases |Ahead(s, id)|
  {
    hide Precedes;
    var last := LastAhead(s, id);
    if n == |Ahead(s, id)| - 1 {
      j := last;
    } else {
      j := PlaceTaken(s, last, n);
      AheadTransitive(s, last, id);
    }
  }

  /** The request right in front of `id`. */
  lemma LastAhead(s: Host, id: Id) returns (last: Id)
    requires QueueOk(s) && id in s.queue && Ahead(s, id) != {}
    ensures last in Ahead(s, id) && Ahead(s, last) == Ahead(s, id) - {last}
  {
    hide Precedes;
    last :| last in Ahead(s, id);
    AheadTransitive(s, last, id);
    while exists j :: j in Ahead(s, id) && j != last && j !in Ahead(s, last)
      invariant last in Ahead(s, id) && Ahead(s, last) <= Ahead(s, id) - {last}
      decreases Ahead(s, id) - Ahead(s, last)
    {
      var j :| j in Ahead(s, id) && j != last && j !in Ahead(s, last);
      OneAhead(s, j, last);
      AheadTransitive(s, last, j);
      AheadTransitive(s, j, id);
      last := j;
    }
  }

  lemma SparesAll(s: Host, id: Id, k: nat)
    requires QueueOk(s) && OneBudget(s) && id in s.queue && s.queue[id].pid in s.alive && k in Open(s)
    ensures (forall j :: j in Ahead(s, id) ==> !NeedsSlot(s, k, j)) <==> Admissible(s, id)
  {
    hide Precedes;
    assert forall j :: j in s.queue && s.queue[j].pid in s.alive ==> Reach(s, j) == Open(s);
    hide Open, Reach;
    if Admissible(s, id) {
      forall j | j in Ahead(s, id) ensures !NeedsSlot(s, k, j) {
        AheadTransitive(s, j, id);
        Sorting.SubsetCount(Ahead(s, j), Ahead(s, id) - {j});
      }
    } else {
      var j := PlaceTaken(s, id, |Open(s)| - 1);
      assert NeedsSlot(s, k, j);
    }
  }

  /**
   An admission leaves every other admissible request admissible exactly when no live request ahead of the admitted
   one needs the slot it takes. With one budget in use, that of all the slots, this is so exactly when the admitted
   request was itself admissible at that moment: when no request that came in after the listing had pushed it
   out of reach.
   */
  lemma AdmissionLeavesOthers(s: Host, after: Host, id: Id, k: nat)
    requires QueueOk(s) && Admits(s, after, id, k)
    ensures LeavesOthers(s, after, id) <==> forall j :: j in Ahead(s, id) ==> !NeedsSlot(s, k, j)
    ensures OneBudget(s) ==> (LeavesOthers(s, after, id) <==> Admissible(s, id))
  {
    hide Precedes, Open, OpenTo;
    forall j | j in s.queue.Keys && j != id && Admissible(s, j)
      ensures Admissible(after, j) <==> !(j in Ahead(s, id) && NeedsSlot(s, k, j))
    {
      OtherAfter(s, after, id, k, j);
    }
    forall j | j in Ahead(s, id) ensures j in s.queue.Keys && j != id && (NeedsSlot(s, k, j) ==> Admissible(s, j)) {
      AheadTransitive(s, j, id);
    }
    if OneBudget(s) { SparesAll(s, id, k); }
  }

  /** A decision to admit is such an admission... */
  lemma DecideAdmits(s: Host, p: Pid)
    requires Valid(s) && Enabled(s, Decide(p)) && Next(s, Decide(p)).phases[p].Running?
    ensures var after := Next(s, Decide(p));
      p in after.phases && Admits(s, after, s.phases[p].id, after.phases[p].slot)
  {
    hide Admission, Ahead;
    var after := Next(s, Decide(p));
    var k := after.phases[p].slot;
    HeldIsOpen(s, p);
    assert k in Held(s.phases[p]);
    forall i: nat ensures Taken(after, i) <==> Taken(s, i) || i == k {
      if Taken(s, i) {
        var q :| q in s.phases.Keys && Keeps(s, q, i);
        assert Keeps(after, q, i);
      }
      if Taken(after, i) && i != k {
        var q :| q in after.phases.Keys && Keeps(after, q, i);
        assert Keeps(s, q, i);
      }
      assert Keeps(after, p, k);
    }
    assert Open(after) == Open(s) - {k};
  }

  /** It takes the slot of its place among those it holds, so that many more are open below. */
  lemma SlotsBelow(s: Host, p: Pid)
    requires Valid(s) && Enabled(s, Decide(p)) && Next(s, Decide(p)).phases[p].Running?
    ensures var ph := s.phases[p];
      ph.id in s.queue && |Before(ph.rows, s.queue[ph.id])| <= |OpenTo(s, Next(s, Decide(p)).phases[p].slot)|
  {
    hide Before, Open, Sorting.Sort, Freed, FreedBut;
    var ph := s.phases[p];
    OwnRow(s, p);
    HeldIsOpen(s, p);
    assert ScanOk(ph, BudgetOf(s, p));
    PositionCounts(ph.rows, s.queue[ph.id]);
    var n := |Before(ph.rows, s.queue[ph.id])|;
    var k := Next(s, Decide(p)).phases[p].slot;
    assert k == ph.held[n];
    DistinctCount(ph.held[..n]);
    forall i | i in Members(ph.held[..n]) ensures i in OpenTo(s, k) {
      assert i in Held(ph);
    }
    Sorting.SubsetCount(Members(ph.held[..n]), OpenTo(s, k));
  }

  /** ... and if every live request ahead was listed, the admitted one is admissible and takes nobody's turn. */
  lemma ListedIsAdmissible(s: Host, p: Pid)
    requires Valid(s) && Enabled(s, Decide(p)) && Next(s, Decide(p)).phases[p].Running?
    requires forall id :: id in Ahead(s, s.phases[p].id) ==> id in s.phases[p].listing
    ensures Admissible(s, s.phases[p].id) && LeavesOthers(s, Next(s, Decide(p)), s.phases[p].id)
  {
    hide Precedes, Before, Next, Open, OpenTo, NeedsSlot;
    var ph := s.phases[p];
    DecideExact(s, p);
    DecideAdmits(s, p);
    SlotsBelow(s, p);
    var after, id := Next(s, Decide(p)), ph.id;
    var k := after.phases[p].slot;
    Sorting.SubsetCount(Ahead(s, id), Before(ph.rows, s.queue[id]));
    Sorting.SubsetCount(Held(ph), OpenTo(s, BudgetOf(s, p)));
    forall j | j in Ahead(s, id) ensures !NeedsSlot(s, k, j) {
      AheadFits(s, id, k, j);
    }
    AdmissionLeavesOthers(s, after, id, k);
  }

  lemma AheadFits(s: Host, id: Id, k: nat, j: Id)
    requires QueueOk(s) && id in s.queue && j in Ahead(s, id) && k in Open(s)
    requires |Ahead(s, id)| <= |OpenTo(s, k)|
    ensures !NeedsSlot(s, k, j)
  {
    hide Precedes;
    AheadTransitive(s, j, id);
    Sorting.SubsetCount(Ahead(s, j), Ahead(s, id) - {j});
    if k < BudgetOf(s, s.queue[j].pid) {
      Sorting.SubsetCount(OpenTo(s, k) + {k}, Reach(s, j));
    }
  }

  /**
   Whenever a live process waits, the head of the queue is admissible exactly when a slot within its reach is open.
   */
  lemma HeadAdmissible(s: Host, id: Id) returns (head: Id)
    requires QueueOk(s) && id in s.queue && s.queue[id].pid in s.alive
    ensures head in s.queue && s.queue[head].pid in s.alive && Ahead(s, head) == {}
    ensures Admissible(s, head) <==> Reach(s, head) != {}
    ensures OneBudget(s) ==> Reach(s, head) == Open(s)
  {
    hide Precedes;
    if Ahead(s, id) == {} {
      head := id;
    } else {
      head := PlaceTaken(s, id, 0);
    }
  }

  // ----- One undisturbed scan -----

  /** The queue without requests whose process is gone, among the first `n` listed. */
  function Swept(s: Host, listing: seq<Id>, n: nat): map<Id, Request>
    requires n <= |listing|
  {
    map id | id in s.queue && (s.queue[id].pid in s.alive || id !in listing[..n]) :: s.queue[id]
  }

  class Gate {
    var host: Host

    /**
     Reads the queue, tries every slot and decides, with nothing else happening meanwhile. The process is
     admitted exactly when its request is admissible; otherwise it holds nothing and waits on.
     Either way the requests of dead processes are gone.
     */
    method Scan(p: Pid, listing: seq<Id>) returns (admitted: bool)
      requires Valid(host) && Enabled(host, Lock(p, listing))
      modifies this
      ensures Valid(host) && host.lock.None? && host.alive == old(host.alive) && host.issued == old(host.issued)
      ensures admitted <==> Admissible(old(host), old(host.phases[p].id))
      ensures admitted ==>
        && p in host.phases && host.phases == old(host.phases)[p := host.phases[p]]
        && host.phases[p].Running? && host.phases[p].slot in Open(old(host))
        && host.slots == old(host.slots)[host.phases[p].slot := Some(p)]
        && host.queue == Swept(old(host), listing, |listing|) - {old(host.phases[p].id)}
      ensures !admitted ==>
        && host.phases == old(host.phases) && host.slots == old(host.slots)
        && host.queue == Swept(old(host), listing, |listing|)
    {
      hide Valid, Next, Admissible, Swept, Open, IsListing, RowsRead, SlotsTried, Admission;
      ghost var before := host;
      var budget := BudgetOf(host, p);
      host := Next(host, Lock(p, listing));
      NextKeeps(before, Lock(p, listing));
      ScanStarts(before, p, listing);
      for i := 0 to |listing|
        invariant Valid(host) && RowsRead(before, host, p, listing, i)
      {
        NextKeeps(host, ReadRow(p));
        RowRead(before, host, p, listing, i);
        host := Next(host, ReadRow(p));
      }
      BudgetFits(before, p);
      NoSlotTried(before, host, p, listing);
      for k := 0 to budget
        invariant Valid(host) && SlotsTried(before, host, p, listing, k)
      {
        NextKeeps(host, TrySlot(p));
        SlotTried(before, host, p, listing, k);
        host := Next(host, TrySlot(p));
      }
      NextKeeps(host, Decide(p));
      ScanDecides(before, host, p, listing);
      admitted := Admission(host.phases[p]).Some?;
      host := Next(host, Decide(p));
    }
  }

  ghost predicate ScanOf(before: Host, s: Host, p: Pid, listing: seq<Id>) {
    && p in before.phases && before.phases[p].Waiting?
    && s.alive == before.alive && s.issued == before.issued && s.budgets == before.budgets && s.lock == Some(p)
    && p in s.phases && s.phases[p].Scanning? && s.phases == before.phases[p := s.phases[p]]
    && s.phases[p].id == before.phases[p].id && s.phases[p].listing == listing
  }

  ghost predicate RowsAre(before: Host, s: Host, p: Pid, listing: seq<Id>, n: nat)
    requires ScanOf(before, s, p, listing) && n <= |listing|
  {
    && s.phases[p].read == n && s.queue == Swept(before, listing, n)
    && forall r :: r in s.phases[p].rows <==>
      r.id in before.queue && before.queue[r.id] == r && r.pid in before.alive && r.id in listing[..n]
  }

  ghost predicate RowsRead(before: Host, s: Host, p: Pid, listing: seq<Id>, n: nat)
    requires n <= |listing|
  {
    && ScanOf(before, s, p, listing) && RowsAre(before, s, p, listing, n)
    && s.slots == before.slots && s.phases[p].tried == 0 && s.phases[p].held == []
  }

  lemma ScanStarts(before: Host, p: Pid, listing: seq<Id>)
    requires Enabled(before, Lock(p, listing))
    ensures RowsRead(before, Next(before, Lock(p, listing)), p, listing, 0)
  {
    assert listing[..0] == [];
    assert Swept(before, listing, 0) == before.queue;
  }

  lemma QueueSwept(before: Host, listing: seq<Id>, n: nat)
    requires n < |listing| && listing[n] in before.queue
    requires forall i, j :: 0 <= i < j < |listing| ==> listing[i] != listing[j]
    ensures var id := listing[n];
      && id in Swept(before, listing, n) && Swept(before, listing, n)[id] == before.queue[id]
      && Swept(before, listing, n + 1)
        == if before.queue[id].pid in before.alive then Swept(before, listing, n) else Swept(before, listing, n) - {id}
  {
    assert listing[..n + 1] == listing[..n] + [listing[n]];
    assert listing[n] !in listing[..n];
  }

  lemma RowRead(before: Host, s: Host, p: Pid, listing: seq<Id>, n: nat)
    requires Valid(before) && Enabled(before, Lock(p, listing))
    requires n < |listing| && RowsRead(before, s, p, listing, n)
    ensures RowsRead(before, Next(s, ReadRow(p)), p, listing, n + 1)
  {
    hide Swept;
    var id := listing[n];
    QueueSwept(before, listing, n);
    assert Next(s, ReadRow(p)) == ReadRowOf(s, p);
    var after := ReadRowOf(s, p);
    hide Next, Enabled;
    forall r ensures r in after.phases[p].rows <==>
      r.id in before.queue && before.queue[r.id] == r && r.pid in before.alive && r.id in listing[..n + 1]
    {
      assert r.id in listing[..n + 1] <==> r.id in listing[..n] || r.id == id by {
        assert listing[..n + 1] == listing[..n] + [id];
      }
    }
  }

  ghost predicate SlotsTried(before: Host, s: Host, p: Pid, listing: seq<Id>, n: nat) {
    && ScanOf(before, s, p, listing) && RowsAre(before, s, p, listing, |listing|)
    && |s.slots| == |before.slots| && s.phases[p].tried == n <= BudgetOf(s, p) <= |s.slots|
    && (forall k: nat :: k in s.phases[p].held <==> k < n && before.slots[k].None?)
    && (forall k: nat :: k < |s.slots| ==> s.slots[k] == if k in s.phases[p].held then Some(p) else before.slots[k])
  }

  lemma BudgetFits(s: Host, p: Pid)
    requires Valid(s) && p in s.phases
    ensures BudgetOf(s, p) <= |s.slots|
  {
  }

  lemma NoSlotTried(before: Host, s: Host, p: Pid, listing: seq<Id>)
    requires RowsRead(before, s, p, listing, |listing|) && BudgetOf(before, p) <= |before.slots|
    ensures SlotsTried(before, s, p, listing, 0)
  {
  }

  lemma SlotTried(before: Host, s: Host, p: Pid, listing: seq<Id>, n: nat)
    requires n < BudgetOf(before, p) && SlotsTried(before, s, p, listing, n)
    ensures SlotsTried(before, Next(s, TrySlot(p)), p, listing, n + 1)
  {
    hide Swept;
    var held := s.phases[p].held;
    assert forall k: nat :: k in held + [n] <==> k in held || k == n;
  }

  lemma OpenIsFree(s: Host)
    requires LockOk(s) && SlotsOk(s) && s.lock.None?
    ensures forall k: nat :: k in Open(s) <==> k < |s.slots| && s.slots[k].None?
  {
    forall k: nat | k < |s.slots| ensures Taken(s, k) <==> s.slots[k].Some? {
      if s.slots[k].Some? {
        var p := s.slots[k].value;
        assert Holds(s, p, k) && Keeps(s, p, k);
      } else if Taken(s, k) {
        var p :| p in s.phases.Keys && Keeps(s, p, k);
        assert Holds(s, p, k);
      }
    }
  }

  lemma RowsAhead(before: Host, s: Host, p: Pid, listing: seq<Id>)
    requires QueueOk(before) && LockOk(before) && ScanOf(before, s, p, listing)
      && RowsAre(before, s, p, listing, |listing|)
    requires IsListing(listing, before.queue.Keys)
    ensures var id := before.phases[p].id;
      && id in s.queue && s.queue[id] == before.queue[id]
      && Before(s.phases[p].rows, s.queue[id]) == Ahead(before, id)
  {
    hide Precedes;
    assert listing[..|listing|] == listing;
    var id, rows := before.phases[p].id, s.phases[p].rows;
    var own := before.queue[id];
    forall j | j in Ahead(before, id) ensures j in Before(rows, own) {
      assert before.queue[j].id == j;
      assert before.queue[j] in rows;
    }
  }

  lemma HeldIsAllOpen(before: Host, s: Host, p: Pid, listing: seq<Id>)
    requires LockOk(before) && SlotsOk(before) && before.lock.None?
    requires SlotsTried(before, s, p, listing, BudgetOf(before, p))
    ensures Held(s.phases[p]) == OpenTo(before, BudgetOf(before, p))
    ensures forall k: nat :: k < |before.slots| ==> before.slots[k] != Some(p)
  {
    hide Open, Swept;
    OpenIsFree(before);
    forall k: nat ensures k in Held(s.phases[p]) <==> k in OpenTo(before, BudgetOf(before, p)) {
    }
    forall k: nat | k < |before.slots| ensures before.slots[k] != Some(p) {
      assert !Holds(before, p, k);
    }
  }

  lemma ScanIsComplete(before: Host, s: Host, p: Pid, listing: seq<Id>)
    requires Enabled(before, Lock(p, listing)) && SlotsTried(before, s, p, listing, BudgetOf(before, p))
    ensures Enabled(s, Decide(p)) && Next(s, Decide(p)) == DecideOf(s, p)
  {
  }

  lemma DecidesAs(before: Host, s: Host, p: Pid, listing: seq<Id>)
    requires Valid(before) && Valid(s) && Enabled(before, Lock(p, listing))
    requires SlotsTried(before, s, p, listing, BudgetOf(before, p))
    ensures p in s.phases && s.phases[p].Scanning?
    ensures Admission(s.phases[p]).Some? <==> Admissible(before, before.phases[p].id)
  {
    hide Swept, Before, Ahead, Open, IsListing, Admission, Freed, FreedBut;
    ScanIsComplete(before, s, p, listing);
    HeldIsAllOpen(before, s, p, listing);
    RowsAhead(before, s, p, listing);
    DecideExact(s, p);
  }

  lemma ScanDecides(before: Host, s: Host, p: Pid, listing: seq<Id>)
    requires Valid(before) && Valid(s) && Enabled(before, Lock(p, listing))
    requires SlotsTried(before, s, p, listing, BudgetOf(before, p))
    ensures p in s.phases && s.phases[p].Scanning?
    ensures var after, id := Next(s, Decide(p)), before.phases[p].id;
      && (Admission(s.phases[p]).Some? <==> Admissible(before, id))
      && after.lock.None? && after.alive == before.alive && after.issued == before.issued
      && (Admission(s.phases[p]).Some? ==>
        && p in after.phases && after.phases == before.phases[p := after.phases[p]]
        && after.phases[p].Running? && after.phases[p].slot in Open(before)
        && after.slots == before.slots[after.phases[p].slot := Some(p)]
        && after.queue == Swept(before, listing, |listing|) - {id})
      && (Admission(s.phases[p]).None? ==>
        && after.phases == before.phases && after.slots == before.slots
        && after.queue == Swept(before, listing, |listing|))
  {
    hide *;
    DecidesAs(before, s, p, listing);
    ValidParts(before);
    LockFree(before, p, listing);
    HeldIsAllOpen(before, s, p, listing);
    ScanIsComplete(before, s, p, listing);
    Outcome(before, s, p, listing);
  }

  lemma ValidParts(s: Host)
    requires Valid(s)
    ensures LockOk(s) && SlotsOk(s)
  {
  }

  lemma LockFree(s: Host, p: Pid, listing: seq<Id>)
    requires Enabled(s, Lock(p, listing))
    ensures s.lock.None? && p in s.phases && s.phases[p].Waiting?
  {
  }

  lemma Outcome(before: Host, s: Host, p: Pid, listing: seq<Id>)
    requires SlotsTried(before, s, p, listing, BudgetOf(before, p)) && Enabled(s, Decide(p))
    requires Held(s.phases[p]) == OpenTo(before, BudgetOf(before, p))
    requires forall k: nat :: k < |before.slots| ==> before.slots[k] != Some(p)
    ensures p in before.phases && before.phases[p].Waiting?
    ensures var after, ph := DecideOf(s, p), s.phases[p];
      && after.lock.None? && after.alive == before.alive && after.issued == before.issued
      && (Admission(ph).Some? ==>
        && p in after.phases && after.phases == before.phases[p := after.phases[p]]
        && after.phases[p].Running? && after.phases[p].slot in Open(before)
        && after.slots == before.slots[after.phases[p].slot := Some(p)]
        && after.queue == Swept(before, listing, |listing|) - {before.phases[p].id})
      && (Admission(ph).None? ==>
        && after.phases == before.phases && after.slots == before.slots
        && after.queue == Swept(before, listing, |listing|))
  {
    hide Swept, Open, Admission, Position;
    var after := DecideOf(s, p);
    match Admission(s.phases[p])
    case Some(k) =>
      assert k in Held(s.phases[p]);
      assert after.slots == before.slots[k := Some(p)];
    case None => assert after.slots == before.slots;
  }

  // ----- A request that arrives during a scan can lose its turn -----

  const LATE_A := Request("a", 1, 0, BackgroundValidation)
  const LATE_B := Request("b", 2, 1, MainGate)
  const LATE_C := Request("c", 3, 2, MainGate)

  lemma RunTwo(s: Host, steps: seq<Step>, step: Step)
    ensures Run(s, steps + [step]) == Next(Run(s, steps), step)
  {
    assert (steps + [step])[..|steps|] == steps;
  }

  lemma RunThree(s: Host, a: Step, b: Step, c: Step)
    ensures Run(s, [a, b, c]) == Next(Next(Next(s, a), b), c)
  {
    hide Next;
    assert [] + [a] == [a] && [a] + [b] == [a, b] && [a, b] + [c] == [a, b, c];
    RunTwo(s, [], a);
    RunTwo(s, [a], b);
    RunTwo(s, [a, b], c);
  }

  function LateListed(): Host {
    Host({1, 2, 3}, {"a"}, map["a" := LATE_A], Some(1), [None, None],
      map[1 := Scanning("a", ["a"], 1, [LATE_A], 0, [])], map[1 := 2])
  }

  function LateJoined(): Host {
    Host({1, 2, 3}, {"a", "b", "c"}, map["a" := LATE_A, "b" := LATE_B, "c" := LATE_C], Some(1), [Some(1), Some(1)],
      map[1 := Scanning("a", ["a"], 1, [LATE_A], 2, [0, 1]), 2 := Waiting("b"), 3 := Waiting("c")],
      map[1 := 2, 2 := 2, 3 := 2])
  }

  lemma LateListedReached()
    ensures Run(Fresh({1, 2, 3}, 2), [Enqueue(1, LATE_A, 2), Lock(1, ["a"]), ReadRow(1)]) == LateListed()
  {
    var s0 := Fresh({1, 2, 3}, 2);
    assert s0.slots == [None, None];
    var s1 := Next(s0, Enqueue(1, LATE_A, 2));
    assert s1 == Host({1, 2, 3}, {"a"}, map["a" := LATE_A], None, [None, None], map[1 := Waiting("a")], map[1 := 2]);
    var s2 := Next(s1, Lock(1, ["a"]));
    assert s2 == Host({1, 2, 3}, {"a"}, map["a" := LATE_A], Some(1), [None, None],
      map[1 := Scanning("a", ["a"], 0, [], 0, [])], map[1 := 2]);
    var s3 := Next(s2, ReadRow(1));
    assert [] + [LATE_A] == [LATE_A] && s3.phases == LateListed().phases && s3.budgets == LateListed().budgets
      && s3 == LateListed();
    RunThree(s0, Enqueue(1, LATE_A, 2), Lock(1, ["a"]), ReadRow(1));
  }

  lemma LateJoins()
    ensures var s := Next(Next(LateListed(), Enqueue(2, LATE_B, 2)), Enqueue(3, LATE_C, 2));
      s == LateJoined().(lock := Some(1), slots := [None, None],
        phases := LateJoined().phases[1 := LateListed().phases[1]])
  {
    var s0 := LateListed();
    var s1 := Next(s0, Enqueue(2, LATE_B, 2));
    assert s1.phases == s0.phases[2 := Waiting("b")] && s1.slots == [None, None];
    var s2 := Next(s1, Enqueue(3, LATE_C, 2));
    assert s2.phases == LateJoined().phases[1 := s0.phases[1]];
    assert s2.queue == LateJoined().queue && s2.issued == LateJoined().issued && s2.budgets == LateJoined().budgets;
  }

  lemma LateJoinedReached()
    ensures Run(LateListed(), [Enqueue(2, LATE_B, 2), Enqueue(3, LATE_C, 2), TrySlot(1), TrySlot(1)]) == LateJoined()
  {
    var s0 := LateListed();
    var ph := s0.phases[1];
    LateJoins();
    var s2 := Next(Next(s0, Enqueue(2, LATE_B, 2)), Enqueue(3, LATE_C, 2));
    var s3 := Next(s2, TrySlot(1));
    assert s3.slots == [Some(1), None] && s3.phases[1] == ph.(tried := 1, held := [0]);
    var s4 := Next(s3, TrySlot(1));
    assert s4.slots == [Some(1), Some(1)] && s4.phases[1] == ph.(tried := 2, held := [0, 1]);
    assert s4.phases == LateJoined().phases && s4 == LateJoined();
    RunThree(s0, Enqueue(2, LATE_B, 2), Enqueue(3, LATE_C, 2), TrySlot(1));
    RunTwo(s0, [Enqueue(2, LATE_B, 2), Enqueue(3, LATE_C, 2), TrySlot(1)], TrySlot(1));
    assert [Enqueue(2, LATE_B, 2), Enqueue(3, LATE_C, 2), TrySlot(1)] + [TrySlot(1)]
      == [Enqueue(2, LATE_B, 2), Enqueue(3, LATE_C, 2), TrySlot(1), TrySlot(1)];
  }

  function LateAdmitted(): Host {
    Host({1, 2, 3}, {"a", "b", "c"}, map["b" := LATE_B, "c" := LATE_C], None, [Some(1), None],
      map[1 := Running(0), 2 := Waiting("b"), 3 := Waiting("c")],
      map[1 := 2, 2 := 2, 3 := 2])
  }

  lemma LateDecided()
    ensures Next(LateJoined(), Decide(1)) == LateAdmitted()
  {
    var s := LateJoined();
    var ph := s.phases[1];
    assert Sorting.Sort(QueueLeq, ph.rows) == [LATE_A];
    assert Admission(ph) == Some(0);
    hide Admission;
    var after := DecideOf(s, 1);
    assert after.slots == LateAdmitted().slots && after.queue == LateAdmitted().queue;
    assert after.phases == LateAdmitted().phases;
  }

  lemma LateOpen()
    ensures Open(LateJoined()) == {0, 1} && Open(LateAdmitted()) == {1}
  {
    var s, after := LateJoined(), LateAdmitted();
    assert Keeps(after, 1, 0);
    assert forall k: nat :: !Taken(s, k);
    assert forall k: nat :: Taken(after, k) ==> k == 0;
    assert Open(s) == {0, 1};
    assert Open(after) == {1};
  }

  lemma LateReach()
    ensures Reach(LateJoined(), "c") == {0, 1} && Reach(LateAdmitted(), "c") == {1}
  {
    hide Open;
    LateOpen();
  }

  lemma LateAhead()
    ensures Ahead(LateJoined(), "c") == {"b"} && Ahead(LateAdmitted(), "c") == {"b"}
  {
    assert Precedes(LATE_B, LATE_C) && !Precedes(LATE_A, LATE_C);
    assert Ahead(LateJoined(), "c") == {"b"};
    assert Ahead(LateAdmitted(), "c") == {"b"};
  }

  /**
   With two slots and a background gate scanning an otherwise empty queue, two main gates join before it decides.
   It is admitted on what it listed, and the second of them, admissible a moment before, no longer is.
   */
  lemma LateJoinerOvertaken()
    ensures var s := Run(Run(Fresh({1, 2, 3}, 2), [Enqueue(1, LATE_A, 2), Lock(1, ["a"]), ReadRow(1)]),
                         [Enqueue(2, LATE_B, 2), Enqueue(3, LATE_C, 2), TrySlot(1), TrySlot(1)]);
      var after := Next(s, Decide(1));
      && 1 in after.phases && after.phases[1].Running?
      && Admissible(s, "c") && !Admissible(after, "c")
  {
    hide Run, Next, Ahead, Open, OpenTo, Reach;
    LateListedReached();
    LateJoinedReached();
    LateDecided();
    LateOpen();
    LateAhead();
    LateReach();
  }
}
