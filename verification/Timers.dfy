/** The timer queue itself (base/TimerQueue.cc): two ordered indexes over the same heap objects, a
    cancellation set, and a one-shot timerfd. Addresses are numbers the allocator may use again. */
module Timers {
  import opened Common
  import opened TimerModel

  datatype Timer = Timer(expiration: int, interval: real, sequence: nat)

  datatype Entry = Entry(when: int, addr: nat)

  /** The one-shot descriptor: disarmed, armed at one point in time to fire at another, or fired and
      not yet read. */
  datatype Timerfd = Idle | Armed(at: int, target: int) | Fired

  // ----- howMuchTimeFromNow -----

  datatype Timespec = Timespec(sec: int, nsec: int)

  const MIN_DELAY_MICROS := 100

  /** The relative time programmed into the timerfd: never zero, which would disarm it. */
  function HowMuchTimeFromNow(when: int, now: int): (ts: Timespec)
    ensures 0 <= ts.sec && 0 <= ts.nsec < 1_000_000_000 && ts != Timespec(0, 0)
    ensures FireTime(ts, now) == Max(when, now + 100)
  {
    var micros := if when - now < MIN_DELAY_MICROS then MIN_DELAY_MICROS else when - now;
    Timespec(micros / MICROS_PER_SECOND, micros % MICROS_PER_SECOND * 1000)
  }

  /** When a timerfd armed with this relative time fires, in microseconds. */
  function FireTime(ts: Timespec, now: int): int {
    (now * 1000 + ts.sec * 1_000_000_000 + ts.nsec) / 1000
  }

  // ----- Ordered sets of entries -----

  /** std::pair's order: time first, then address. */
  predicate Before(a: Entry, b: Entry) {
    a.when < b.when || (a.when == b.when && a.addr < b.addr)
  }

  ghost predicate Sorted(s: seq<Entry>) {
    forall i, j {:trigger Before(s[i], s[j])} | 0 <= i < j < |s| :: Before(s[i], s[j])
  }

  lemma SortedHead(s: seq<Entry>)
    requires Sorted(s) && s != []
    ensures forall x | x in s[1..] :: Before(s[0], x)
    ensures forall x | x in s :: s[0].when <= x.when
  {
    forall k | 1 <= k < |s| ensures Before(s[0], s[k]) {
    }
  }

  /** std::set::lower_bound: how many entries lie before the key. */
  function LowerBound(s: seq<Entry>, key: Entry): (n: nat)
    requires Sorted(s)
    ensures n <= |s|
    ensures forall i | 0 <= i < n :: Before(s[i], key)
    ensures forall i | n <= i < |s| :: !Before(s[i], key)
  {
    assert forall i | 0 < i < |s| :: Before(s[0], s[i]);
    if s == [] || !Before(s[0], key) then 0 else 1 + LowerBound(s[1..], key)
  }

  function Inserted(s: seq<Entry>, e: Entry): (r: seq<Entry>)
    requires Sorted(s) && e !in s
    ensures Sorted(r) && |r| == |s| + 1
    ensures forall x :: x in r <==> x in s || x == e
  {
    var n := LowerBound(s, e);
    var r := s[..n] + [e] + s[n..];
    assert r[n] == e;
    assert forall i | 0 <= i < |s| :: s[i] == r[if i < n then i else i + 1];
    r
  }

  function Erased(s: seq<Entry>, e: Entry): (r: seq<Entry>)
    requires Sorted(s) && e in s
    ensures Sorted(r) && |r| == |s| - 1
    ensures forall x :: x in r <==> x in s && x != e
  {
    var n := LowerBound(s, e);
    assert n < |s| && s[n] == e;
    var r := s[..n] + s[n + 1..];
    assert forall i | 0 <= i < |s| && i != n :: s[i] == r[if i < n then i else i - 1];
    r
  }

  // ----- Index agreement -----

  function IdAt(heap: map<nat, Timer>, addr: nat): TimerId
    requires addr in heap
  {
    TimerId(addr, heap[addr].sequence)
  }

  /** The entry under which a timer's current expiration files it. */
  function EntryAt(heap: map<nat, Timer>, addr: nat): Entry
    requires addr in heap
  {
    Entry(heap[addr].expiration, addr)
  }

  ghost predicate Current(heap: map<nat, Timer>, e: Entry) {
    e.addr in heap && EntryAt(heap, e.addr) == e
  }

  ghost predicate Names(heap: map<nat, Timer>, id: TimerId) {
    id.addr in heap && IdAt(heap, id.addr) == id
  }

  /** `timers_` and `activeTimers_` hold the same live timers, each under its current keys. */
  ghost predicate Agree(heap: map<nat, Timer>, timers: seq<Entry>, active: set<TimerId>) {
    && Sorted(timers)
    && |timers| == |active|
    && (forall e | e in timers :: Current(heap, e))
    && (forall id | id in active :: Names(heap, id))
    && (forall e {:trigger IdAt(heap, e.addr)} | e in timers :: IdAt(heap, e.addr) in active)
    && (forall id {:trigger EntryAt(heap, id.addr)} | id in active :: EntryAt(heap, id.addr) in timers)
  }

  lemma AgreeInsert(heap: map<nat, Timer>, timers: seq<Entry>, active: set<TimerId>, addr: nat)
    requires Agree(heap, timers, active) && addr in heap && IdAt(heap, addr) !in active
    ensures EntryAt(heap, addr) !in timers
    ensures Agree(heap, Inserted(timers, EntryAt(heap, addr)), active + {IdAt(heap, addr)})
  {
  }

  lemma AgreeErase(heap: map<nat, Timer>, timers: seq<Entry>, active: set<TimerId>, id: TimerId)
    requires Agree(heap, timers, active) && id in active
    ensures EntryAt(heap, id.addr) in timers
    ensures Agree(heap - {id.addr}, Erased(timers, EntryAt(heap, id.addr)), active - {id})
  {
    var heap', active' := heap - {id.addr}, active - {id};
    assert forall other | other in active' ::
      other.addr != id.addr && EntryAt(heap, other.addr) == EntryAt(heap', other.addr);
    assert forall e | e in Erased(timers, EntryAt(heap, id.addr)) ::
      e.addr != id.addr && IdAt(heap, e.addr) == IdAt(heap', e.addr);
  }

  /** Objects outside the indexes may be created, changed or deleted freely. */
  lemma AgreeElsewhere(heap: map<nat, Timer>, heap': map<nat, Timer>, timers: seq<Entry>, active: set<TimerId>)
    requires Agree(heap, timers, active)
    requires SameAt(heap, heap', active)
    ensures Agree(heap', timers, active)
  {
    assert forall id | id in active :: EntryAt(heap, id.addr) == EntryAt(heap', id.addr);
    assert forall e | e in timers :: IdAt(heap, e.addr) == IdAt(heap', e.addr);
  }

  lemma AgreeDropFirst(heap: map<nat, Timer>, timers: seq<Entry>, active: set<TimerId>)
    requires Agree(heap, timers, active) && timers != []
    ensures Current(heap, timers[0]) && IdAt(heap, timers[0].addr) in active
    ensures Agree(heap, timers[1..], active - {IdAt(heap, timers[0].addr)})
  {
    SortedHead(timers);
    assert timers[0] in timers && timers[0] !in timers[1..];
    var id := IdAt(heap, timers[0].addr);
    assert forall e | e in timers[1..] :: e in timers;
    assert forall e | e in timers[1..] :: Current(heap, e) && e.addr != id.addr && IdAt(heap, e.addr) != id;
    assert forall other | other in active - {id} :: EntryAt(heap, other.addr) in timers[1..];
  }

  // ----- The indexes and the batch together -----

  ghost function Records(heap: map<nat, Timer>, ids: set<TimerId>): map<TimerId, Record>
    requires forall id | id in ids :: id.addr in heap
  {
    map id | id in ids :: Record(heap[id.addr].expiration, heap[id.addr].interval)
  }

  ghost predicate SameAt(heap: map<nat, Timer>, heap': map<nat, Timer>, ids: set<TimerId>) {
    forall id | id in ids :: id.addr in heap && id.addr in heap' && heap'[id.addr] == heap[id.addr]
  }

  lemma RecordsSame(heap: map<nat, Timer>, heap': map<nat, Timer>, ids: set<TimerId>)
    requires SameAt(heap, heap', ids)
    ensures Records(heap', ids) == Records(heap, ids)
  {
  }

  lemma RecordsPlus(heap: map<nat, Timer>, ids: set<TimerId>, id: TimerId)
    requires id.addr in heap && forall i | i in ids :: i.addr in heap
    ensures Records(heap, ids + {id}) == Records(heap, ids)[id := Records(heap, {id})[id]]
  {
  }

  lemma RecordsMinus(heap: map<nat, Timer>, ids: set<TimerId>, id: TimerId)
    requires forall i | i in ids :: i.addr in heap
    ensures Records(heap, ids - {id}) == Records(heap, ids) - {id}
  {
  }

  /** The two indexes of the queue, and the batch with the ids it executes. */
  datatype Store = Store(
    heap: map<nat, Timer>,
    timers: seq<Entry>,
    active: set<TimerId>,
    batch: seq<Entry>,
    running: set<TimerId>,
    created: nat)
  {
    /** Every live object is owned exactly once: by the indexes or by the batch. */
    ghost predicate Owned() {
      && active !! running
      && (forall a | a in heap :: a < UINTPTR_MAX && 1 <= heap[a].sequence <= created)
      && (forall a {:trigger IdAt(heap, a)} | a in heap :: IdAt(heap, a) in active || IdAt(heap, a) in running)
    }

    ghost predicate Consistent() {
      Agree(heap, timers, active) && Agree(heap, batch, running) && Owned()
    }

    ghost function Means(canceling: set<TimerId>, now: Option<int>): Queue
      requires Consistent()
    {
      Queue(Records(heap, active), Records(heap, running), canceling * running, created, now)
    }
  }

  lemma MeansInv(s: Store, canceling: set<TimerId>, now: Option<int>)
    requires s.Consistent() && (now.None? ==> s.running == {})
    ensures Inv(s.Means(canceling, now))
  {
  }

  /** A new object is in neither index and disturbs neither. */
  lemma NewTimerUnfiled(heap: map<nat, Timer>, timers: seq<Entry>, active: set<TimerId>, addr: nat, t: Timer)
    requires Agree(heap, timers, active) && addr !in heap
    ensures Entry(t.expiration, addr) !in timers
    ensures Agree(heap[addr := t], timers, active) && IdAt(heap[addr := t], addr) !in active
  {
    assert SameAt(heap, heap[addr := t], active);
    AgreeElsewhere(heap, heap[addr := t], timers, active);
  }

  ghost function Added(s: Store, addr: nat, t: Timer): Store
    requires Agree(s.heap, s.timers, s.active) && addr !in s.heap
  {
    NewTimerUnfiled(s.heap, s.timers, s.active, addr, t);
    s.(heap := s.heap[addr := t],
       timers := Inserted(s.timers, Entry(t.expiration, addr)),
       active := s.active + {TimerId(addr, t.sequence)},
       created := t.sequence)
  }

  lemma AddedAgrees(s: Store, addr: nat, t: Timer)
    requires s.Consistent() && addr !in s.heap
    ensures var s' := Added(s, addr, t);
            && Agree(s'.heap, s'.timers, s'.active) && Agree(s'.heap, s'.batch, s'.running)
            && SameAt(s.heap, s'.heap, s.active) && SameAt(s.heap, s'.heap, s.running)
  {
    var s' := Added(s, addr, t);
    assert SameAt(s.heap, s'.heap, s.running);
    assert SameAt(s.heap, s'.heap, s.active);
    AgreeElsewhere(s.heap, s'.heap, s.batch, s.running);
    NewTimerUnfiled(s.heap, s.timers, s.active, addr, t);
    AgreeInsert(s'.heap, s.timers, s.active, addr);
  }

  lemma AddedOwned(s: Store, addr: Addr, t: Timer)
    requires s.Consistent() && addr !in s.heap && t.sequence == s.created + 1
    ensures Added(s, addr, t).Owned()
  {
    var s' := Added(s, addr, t);
    assert TimerId(addr, t.sequence) !in s.running;
    forall a | a in s'.heap
      ensures IdAt(s'.heap, a) in s'.active || IdAt(s'.heap, a) in s'.running
    {
      assert a != addr ==> IdAt(s'.heap, a) == IdAt(s.heap, a);
    }
  }

  lemma AddedRecords(s: Store, addr: nat, t: Timer)
    requires s.Consistent() && addr !in s.heap
    ensures var s' := Added(s, addr, t); var id := TimerId(addr, t.sequence);
            && Agree(s'.heap, s'.timers, s'.active) && Agree(s'.heap, s'.batch, s'.running)
            && Records(s'.heap, s'.active) == Records(s.heap, s.active)[id := Record(t.expiration, t.interval)]
            && Records(s'.heap, s'.running) == Records(s.heap, s.running)
  {
    var s' := Added(s, addr, t);
    AddedAgrees(s, addr, t);
    RecordsSame(s.heap, s'.heap, s.running);
    RecordsSame(s.heap, s'.heap, s.active);
    RecordsPlus(s'.heap, s.active, TimerId(addr, t.sequence));
  }

  lemma AddStep(q: Queue, r: Queue, id: TimerId, rec: Record)
    requires id.addr < UINTPTR_MAX && !Occupied(q, id.addr) && id.sequence == r.created == q.created + 1
    requires r == q.(pending := q.pending[id := rec], created := r.created)
    ensures r == UserStep(q, Add(id.addr, rec.when, rec.interval))
  {
  }

  lemma AddedMeans(s: Store, addr: Addr, t: Timer, canceling: set<TimerId>, now: Option<int>)
    requires s.Consistent() && addr !in s.heap && t.sequence == s.created + 1
    ensures var s' := Added(s, addr, t);
            && s'.Consistent()
            && s'.Means(canceling, now) == UserStep(s.Means(canceling, now), Add(addr, t.expiration, t.interval))
  {
    AddedOwned(s, addr, t);
    AddedRecords(s, addr, t);
    OccupiedMeans(s, addr, canceling, now);
    AddStep(s.Means(canceling, now), Added(s, addr, t).Means(canceling, now), TimerId(addr, t.sequence),
            Record(t.expiration, t.interval));
  }

  lemma OccupiedMeans(s: Store, addr: nat, canceling: set<TimerId>, now: Option<int>)
    requires s.Consistent()
    ensures Occupied(s.Means(canceling, now), addr) <==> addr in s.heap
  {
    var q := s.Means(canceling, now);
    if addr in s.heap {
      var id := IdAt(s.heap, addr);
      assert (id in q.pending && q.pending[id] == q.pending[id]) || (id in q.running && q.running[id] == q.running[id]);
    }
  }

  ghost function Removed(s: Store, id: TimerId): Store
    requires s.Consistent() && id in s.active
  {
    AgreeErase(s.heap, s.timers, s.active, id);
    s.(heap := s.heap - {id.addr},
       timers := Erased(s.timers, EntryAt(s.heap, id.addr)),
       active := s.active - {id})
  }

  lemma RemovedAgrees(s: Store, id: TimerId)
    requires s.Consistent() && id in s.active
    ensures var s' := Removed(s, id);
            && s'.Consistent()
            && SameAt(s.heap, s'.heap, s'.active) && SameAt(s.heap, s'.heap, s.running)
  {
    var s' := Removed(s, id);
    AgreeErase(s.heap, s.timers, s.active, id);
    assert SameAt(s.heap, s'.heap, s.running);
    assert SameAt(s.heap, s'.heap, s'.active);
    assert forall a | a in s'.heap :: IdAt(s'.heap, a) == IdAt(s.heap, a) && a != id.addr;
    AgreeElsewhere(s.heap, s'.heap, s.batch, s.running);
  }

  lemma RemovedMeans(s: Store, id: TimerId, canceling: set<TimerId>, now: Option<int>)
    requires s.Consistent() && id in s.active
    ensures var s' := Removed(s, id);
            && s'.Consistent()
            && s'.Means(canceling, now) == UserStep(s.Means(canceling, now), Cancel(id))
  {
    RemovedAgrees(s, id);
    var s' := Removed(s, id);
    RecordsSame(s.heap, s'.heap, s.running);
    RecordsSame(s.heap, s'.heap, s'.active);
    RecordsMinus(s.heap, s.active, id);
  }

  // ----- Batches -----

  /** The sentry (now, UINTPTR_MAX) splits the index exactly at the timers that are due. */
  function DueCount(timers: seq<Entry>, now: int): (k: nat)
    requires Sorted(timers) && (forall e | e in timers :: e.addr < UINTPTR_MAX)
    ensures k <= |timers|
    ensures forall i | 0 <= i < |timers| :: i < k <==> timers[i].when <= now
  {
    assert forall i | 0 <= i < |timers| :: timers[i] in timers;
    LowerBound(timers, Entry(now, UINTPTR_MAX))
  }

  /** One more expired entry moves from the front of the index to the end of the batch. */
  lemma AgreeSnoc(heap: map<nat, Timer>, batch: seq<Entry>, running: set<TimerId>, e: Entry)
    requires Agree(heap, batch, running) && Current(heap, e)
    requires forall b | b in batch :: Before(b, e)
    ensures IdAt(heap, e.addr) !in running
    ensures Agree(heap, batch + [e], running + {IdAt(heap, e.addr)})
  {
  }

  lemma ExpireOne(heap: map<nat, Timer>, all: seq<Entry>, i: nat, active: set<TimerId>, running: set<TimerId>)
    requires i < |all| && Sorted(all)
    requires Agree(heap, all[i..], active) && Agree(heap, all[..i], running)
    ensures Current(heap, all[i]) && IdAt(heap, all[i].addr) in active && IdAt(heap, all[i].addr) !in running
    ensures Agree(heap, all[i + 1..], active - {IdAt(heap, all[i].addr)})
    ensures Agree(heap, all[..i + 1], running + {IdAt(heap, all[i].addr)})
  {
    assert all[i..][0] == all[i] && all[i..][1..] == all[i + 1..] && all[..i] + [all[i]] == all[..i + 1];
    AgreeDropFirst(heap, all[i..], active);
    AgreeSnoc(heap, all[..i], running, all[i]);
  }

  /** The first `i` entries make up the batch, the others the index. */
  ghost predicate SplitAt(heap: map<nat, Timer>, all: seq<Entry>, i: nat, active: set<TimerId>, running: set<TimerId>)
    requires i <= |all|
  {
    Agree(heap, all[i..], active) && Agree(heap, all[..i], running)
  }

  lemma SplitByDue(heap: map<nat, Timer>, all: seq<Entry>, k: nat, now: int,
                   active: set<TimerId>, running: set<TimerId>)
    requires k <= |all| && forall i | 0 <= i < |all| :: i < k <==> all[i].when <= now
    requires Agree(heap, all[k..], active) && Agree(heap, all[..k], running)
    ensures forall id | id in running :: heap[id.addr].expiration <= now
    ensures forall id | id in active :: heap[id.addr].expiration > now
  {
    assert forall id | id in running :: EntryAt(heap, id.addr) in all[..k];
    assert forall id | id in active :: EntryAt(heap, id.addr) in all[k..];
  }

  lemma DueRecords(heap: map<nat, Timer>, active: set<TimerId>, running: set<TimerId>, q: Queue, now: int)
    requires forall id | id in active + running :: id.addr in heap
    requires active !! running && q.pending == Records(heap, active + running)
    requires forall id | id in running :: heap[id.addr].expiration <= now
    requires forall id | id in active :: heap[id.addr].expiration > now
    ensures Due(q, now) == Records(heap, running)
    ensures q.pending - Due(q, now).Keys == Records(heap, active)
  {
  }

  lemma BeganMeans(s: Store, s': Store, now: int, canceling: set<TimerId>)
    requires s.Consistent() && s.running == {}
    requires s'.heap == s.heap && s'.created == s.created
    requires (forall e | e in s.timers :: e.addr < UINTPTR_MAX)
    requires s'.batch == s.timers[..DueCount(s.timers, now)] && s'.timers == s.timers[DueCount(s.timers, now)..]
    requires s'.running <= s.active && s'.active == s.active - s'.running
    requires Agree(s.heap, s'.timers, s'.active) && Agree(s.heap, s'.batch, s'.running)
    ensures s'.Consistent()
    ensures s'.Means({}, Some(now)) == Step(s.Means(canceling, None), Begin(now))
  {
    SplitByDue(s.heap, s.timers, DueCount(s.timers, now), now, s'.active, s'.running);
    assert s.active == s'.active + s'.running;
    DueRecords(s.heap, s'.active, s'.running, s.Means(canceling, None), now);
  }

  /** `ran` lists exactly the timers of `q` that are due, each once, by expiration and then address. */
  ghost predicate InDueOrder(q: Queue, now: int, ran: seq<TimerId>) {
    && (forall id :: id in ran <==> id in Due(q, now))
    && (forall i, j | 0 <= i < j < |ran| ::
          ran[i] in q.pending && ran[j] in q.pending &&
          Before(Entry(q.pending[ran[i]].when, ran[i].addr), Entry(q.pending[ran[j]].when, ran[j].addr)))
  }

  /** `ids` are the timers of these entries, in order. */
  ghost predicate Lists(heap: map<nat, Timer>, entries: seq<Entry>, ids: seq<TimerId>) {
    && |ids| == |entries|
    && forall i | 0 <= i < |ids| :: entries[i].addr in heap && ids[i] == IdAt(heap, entries[i].addr)
  }

  lemma BatchInDueOrder(s: Store, q: Queue, now: int, ran: seq<TimerId>)
    requires s.Consistent() && Records(s.heap, s.running) == Due(q, now)
    requires Lists(s.heap, s.batch, ran)
    ensures InDueOrder(q, now, ran)
  {
    forall i | 0 <= i < |ran|
      ensures ran[i] in Due(q, now) && Entry(q.pending[ran[i]].when, ran[i].addr) == s.batch[i]
    {
      assert s.batch[i] in s.batch && IdAt(s.heap, s.batch[i].addr) in s.running;
      assert Records(s.heap, s.running)[ran[i]] == q.pending[ran[i]];
    }
    forall id | id in Due(q, now)
      ensures id in ran
    {
      assert id in s.running && EntryAt(s.heap, id.addr) in s.batch;
      var i :| 0 <= i < |s.batch| && s.batch[i] == EntryAt(s.heap, id.addr);
      assert ran[i] == id;
    }
    forall i, j | 0 <= i < j < |ran|
      ensures Before(Entry(q.pending[ran[i]].when, ran[i].addr), Entry(q.pending[ran[j]].when, ran[j].addr))
    {
      assert Before(s.batch[i], s.batch[j]);
    }
  }

  /** Whatever stays filed lies in the future: nothing past needs covering. */
  lemma NothingPastLeft(timers: seq<Entry>, now: int, fd: Timerfd)
    requires Sorted(timers) && (forall e | e in timers :: e.addr < UINTPTR_MAX) && now > 0
    ensures PastCovered(fd, timers[DueCount(timers, now)..])
  {
  }

  /** The front of the batch, deleted. */
  ghost function Deleted(s: Store, id: TimerId): Store
    requires s.batch != []
  {
    s.(heap := s.heap - {id.addr}, batch := s.batch[1..], running := s.running - {id})
  }

  /** The front of the batch, restarted and filed again. */
  ghost function Restarted(s: Store, id: TimerId, t: Timer): Store
    requires s.batch != [] && Sorted(s.timers) && Entry(t.expiration, id.addr) !in s.timers
  {
    s.(heap := s.heap[id.addr := t], batch := s.batch[1..], running := s.running - {id},
       timers := Inserted(s.timers, Entry(t.expiration, id.addr)), active := s.active + {id})
  }

  lemma FrontOfBatch(s: Store)
    requires s.Consistent() && s.batch != []
    ensures var e := s.batch[0];
            && Current(s.heap, e) && IdAt(s.heap, e.addr) in s.running
            && (forall id | id in s.active || (id in s.running && id != IdAt(s.heap, e.addr)) :: id.addr != e.addr)
            && Agree(s.heap, s.batch[1..], s.running - {IdAt(s.heap, e.addr)})
  {
    AgreeDropFirst(s.heap, s.batch, s.running);
  }

  lemma DeletedMeans(s: Store, id: TimerId, canceling: set<TimerId>, now: int)
    requires s.Consistent() && s.batch != [] && s.batch[0].addr == id.addr && Names(s.heap, id)
    requires s.heap[id.addr].interval <= 0.0 || id in canceling
    ensures id in s.running
    ensures var s' := Deleted(s, id);
            && s'.Consistent()
            && s'.Means(canceling, Some(now)) == ReleaseStep(s.Means(canceling, Some(now)), id)
  {
    FrontOfBatch(s);
    var s' := Deleted(s, id);
    assert SameAt(s.heap, s'.heap, s.active) && SameAt(s.heap, s'.heap, s'.running);
    AgreeElsewhere(s.heap, s'.heap, s.timers, s.active);
    AgreeElsewhere(s.heap, s'.heap, s'.batch, s'.running);
    assert forall a | a in s'.heap :: IdAt(s'.heap, a) == IdAt(s.heap, a) && a != id.addr;
    RecordsSame(s.heap, s'.heap, s.active);
    RecordsSame(s.heap, s'.heap, s'.running);
    RecordsMinus(s.heap, s.running, id);
    assert canceling * s'.running == canceling * s.running - {id};
  }

  lemma UnfiledEntry(s: Store, id: TimerId, when: int)
    requires s.Consistent() && id in s.running
    ensures Entry(when, id.addr) !in s.timers
  {
  }

  lemma RestartedConsistent(s: Store, id: TimerId, t: Timer)
    requires s.Consistent() && s.batch != [] && s.batch[0].addr == id.addr && Names(s.heap, id)
    requires t == s.heap[id.addr].(expiration := t.expiration)
    ensures id in s.running && Entry(t.expiration, id.addr) !in s.timers
    ensures Agree(s.heap[id.addr := t], s.timers, s.active) && id !in s.active
    ensures var s' := Restarted(s, id, t);
            && s'.Consistent()
            && SameAt(s.heap, s'.heap, s.active) && SameAt(s.heap, s'.heap, s'.running)
  {
    FrontOfBatch(s);
    UnfiledEntry(s, id, t.expiration);
    var s' := Restarted(s, id, t);
    assert SameAt(s.heap, s'.heap, s.active) && SameAt(s.heap, s'.heap, s'.running);
    AgreeElsewhere(s.heap, s'.heap, s.timers, s.active);
    AgreeElsewhere(s.heap, s'.heap, s'.batch, s'.running);
    AgreeInsert(s'.heap, s.timers, s.active, id.addr);
    assert forall a | a in s'.heap :: a in s.heap && IdAt(s'.heap, a) == IdAt(s.heap, a);
  }

  lemma RestartedMeans(s: Store, id: TimerId, t: Timer, canceling: set<TimerId>, now: int)
    requires s.Consistent() && s.batch != [] && s.batch[0].addr == id.addr && Names(s.heap, id)
    requires s.heap[id.addr].interval > 0.0 && id !in canceling
    requires t == s.heap[id.addr].(expiration := AddTime(now, s.heap[id.addr].interval))
    ensures id in s.running && Entry(t.expiration, id.addr) !in s.timers
    ensures var s' := Restarted(s, id, t);
            && s'.Consistent()
            && s'.Means(canceling, Some(now)) == ReleaseStep(s.Means(canceling, Some(now)), id)
  {
    RestartedConsistent(s, id, t);
    var s' := Restarted(s, id, t);
    RecordsSame(s.heap, s'.heap, s.active);
    RecordsSame(s.heap, s'.heap, s'.running);
    RecordsMinus(s.heap, s.running, id);
    RecordsPlus(s'.heap, s.active, id);
    assert canceling * s'.running == canceling * s.running - {id};
  }

  /** What one round of `reset` makes of the store. */
  ghost function Released(s: Store, id: TimerId, canceling: set<TimerId>, now: int): Store
    requires s.Consistent() && s.batch != [] && s.batch[0].addr == id.addr && Names(s.heap, id)
  {
    var t := s.heap[id.addr];
    if t.interval > 0.0 && id !in canceling then
      var t' := t.(expiration := AddTime(now, t.interval));
      RestartedConsistent(s, id, t');
      Restarted(s, id, t')
    else Deleted(s, id)
  }

  lemma ReleasedMeans(s: Store, id: TimerId, canceling: set<TimerId>, now: int)
    requires s.Consistent() && s.batch != [] && s.batch[0].addr == id.addr && Names(s.heap, id)
    ensures var s' := Released(s, id, canceling, now);
            && s'.Consistent() && s'.batch == s.batch[1..]
            && Step(s'.Means(canceling, Some(now)), End) == Step(s.Means(canceling, Some(now)), End)
  {
    var t := s.heap[id.addr];
    if t.interval > 0.0 && id !in canceling {
      RestartedMeans(s, id, t.(expiration := AddTime(now, t.interval)), canceling, now);
    } else {
      DeletedMeans(s, id, canceling, now);
    }
    ReleasedThenEnd(s.Means(canceling, Some(now)), id);
  }

  lemma EmptyBatchEnds(s: Store, canceling: set<TimerId>, now: int)
    requires s.Consistent() && s.batch == []
    ensures s.running == {}
    ensures Step(s.Means(canceling, Some(now)), End) == s.Means(canceling, None)
  {
  }

  /** A timer that is not filed: noted while a batch runs, and without effect otherwise. */
  lemma UnfiledMeans(s: Store, id: TimerId, canceling: set<TimerId>, now: Option<int>)
    requires s.Consistent() && id !in s.active && (now.None? ==> s.running == {})
    ensures UserStep(s.Means(canceling, now), Cancel(id))
         == s.Means(if now.Some? then canceling + {id} else canceling, now)
  {
  }

  /** A timer of the batch outlives every callback: same address, same object. */
  lemma SameTimerStill(s: Store, s': Store, e: Entry)
    requires s.Consistent() && s'.Consistent() && s'.batch == s.batch && s'.running == s.running
    requires e in s.batch
    ensures e.addr in s.heap && e.addr in s'.heap && IdAt(s'.heap, e.addr) == IdAt(s.heap, e.addr)
  {
  }

  // ----- Coverage by the timerfd -----

  /** It fires at the latest at `t`, or as soon after it was armed as it can. */
  ghost predicate Covers(fd: Timerfd, t: int) {
    fd.Fired? || (fd.Armed? && fd.target <= Max(t, fd.at + 100))
  }

  /** Outside `handleRead`: the timerfd will fire, or has, no later than the earliest timer is due. */
  ghost predicate Covered(fd: Timerfd, timers: seq<Entry>) {
    timers != [] ==> Covers(fd, timers[0].when)
  }

  /** Inside it, with the timerfd just read: at least the timers nobody would re-arm for. */
  ghost predicate PastCovered(fd: Timerfd, timers: seq<Entry>) {
    forall e | e in timers && e.when <= 0 :: Covers(fd, e.when)
  }

  /** What resetTimerfd leaves behind, at some clock reading. */
  ghost predicate ArmedFor(fd: Timerfd, when: int) {
    fd.Armed? && fd.target == Max(when, fd.at + 100)
  }

  lemma InsertCoverage(fd: Timerfd, fd': Timerfd, timers: seq<Entry>, e: Entry)
    requires Sorted(timers) && e !in timers
    requires if timers == [] || e.when < timers[0].when then ArmedFor(fd', e.when) else fd' == fd
    ensures Covered(fd, timers) ==> Covered(fd', Inserted(timers, e))
    ensures PastCovered(fd, timers) ==> PastCovered(fd', Inserted(timers, e))
  {
  }

  /** Armed exactly for the earliest timer, if that has a valid timestamp; or fired meanwhile. */
  ghost predicate ArmedExactly(fd: Timerfd, timers: seq<Entry>) {
    timers != [] && timers[0].when > 0 ==> fd.Fired? || ArmedFor(fd, timers[0].when)
  }

  lemma EraseCoverage(fd: Timerfd, timers: seq<Entry>, e: Entry)
    requires Sorted(timers) && e in timers
    ensures Covered(fd, timers) ==> Covered(fd, Erased(timers, e))
    ensures PastCovered(fd, timers) ==> PastCovered(fd, Erased(timers, e))
  {
  }

  // ----- What a batch runs -----

  /** Each of these timers is alive when its callback is called, whatever the earlier ones did. */
  ghost predicate AliveWhenRun(q: Queue, scripts: nat -> seq<UserOp>, ran: seq<TimerId>) {
    forall i | 0 <= i < |ran| :: ran[i] in Callbacks(q, scripts, i).running
  }

  lemma OneMoreRun(heap: map<nat, Timer>, batch: seq<Entry>, q: Queue, scripts: nat -> seq<UserOp>,
                   ran: seq<TimerId>, id: TimerId)
    requires |ran| < |batch| && Lists(heap, batch[..|ran|], ran) && AliveWhenRun(q, scripts, ran)
    requires batch[|ran|].addr in heap && id == IdAt(heap, batch[|ran|].addr)
    requires id in Callbacks(q, scripts, |ran|).running
    ensures Lists(heap, batch[..|ran| + 1], ran + [id]) && AliveWhenRun(q, scripts, ran + [id])
  {
  }

  // ----- The queue itself -----

  /** Timestamp::now(), about which nothing is assumed. */
  method ReadClock() returns (now: int) {
    now := *;
  }

  class TimerQueue {
    /** The Timer objects that have been allocated and not deleted. */
    var heap: map<nat, Timer>
    var timers: seq<Entry>
    var active: set<TimerId>
    var canceling: set<TimerId>
    var calling: bool
    var created: nat
    var timerfd: Timerfd

    /** While `handleRead` is at work: its clock reading, and the expired timers it still holds. */
    ghost var clock: Option<int>
    ghost var batch: seq<Entry>
    ghost var running: set<TimerId>

    constructor ()
      ensures Valid() && View() == EMPTY_QUEUE && Covered(timerfd, timers)
    {
      heap, timers, active, canceling, calling, created, timerfd := map[], [], {}, {}, false, 0, Idle;
      clock, batch, running := None, [], {};
    }

    ghost function Contents(): Store
      reads this
    {
      Store(heap, timers, active, batch, running, created)
    }

    ghost predicate Valid()
      reads this
    {
      Contents().Consistent() && (calling <==> clock.Some?) && (!calling ==> running == {})
    }

    ghost function View(): Queue
      requires Contents().Consistent()
      reads this
    {
      Contents().Means(canceling, clock)
    }

    /** Both coverage conditions survive, whichever of them held. */
    twostate predicate CoverageKept()
      reads this
    {
      && (old(Covered(timerfd, timers)) ==> Covered(timerfd, timers))
      && (old(PastCovered(timerfd, timers)) ==> PastCovered(timerfd, timers))
    }

    /** The kernel: time passes the target. */
    method Expire()
      requires timerfd.Armed?
      modifies this`timerfd
      ensures timerfd == Fired && Covered(timerfd, timers) && PastCovered(timerfd, timers)
    {
      timerfd := Fired;
    }

    /** Time goes by, and an armed timerfd may fire. */
    method PassTime()
      modifies this`timerfd
      ensures CoverageKept() && (timerfd == old(timerfd) || timerfd == Fired)
    {
      if * {
        if timerfd.Armed? {
          Expire();
        }
      }
    }

    /** resetTimerfd, at whatever the clock then reads. */
    method ResetTimerfd(expiration: int)
      modifies this`timerfd
      ensures ArmedFor(timerfd, expiration)
    {
      var now := ReadClock();
      timerfd := Armed(now, FireTime(HowMuchTimeFromNow(expiration, now), now));
    }

    method Insert(addr: nat) returns (earliestChanged: bool)
      requires Agree(heap, timers, active) && addr in heap && IdAt(heap, addr) !in active
      modifies this`timers, this`active
      ensures Agree(heap, timers, active) && active == old(active) + {IdAt(heap, addr)}
      ensures EntryAt(heap, addr) !in old(timers) && timers == Inserted(old(timers), EntryAt(heap, addr))
      ensures earliestChanged <==> old(timers) == [] || heap[addr].expiration < old(timers)[0].when
    {
      AgreeInsert(heap, timers, active, addr);
      var e := EntryAt(heap, addr);
      earliestChanged := timers == [] || e.when < timers[0].when;
      timers := Inserted(timers, e);
      active := active + {IdAt(heap, addr)};
    }

    /** The timerfd is armed for a new earliest timer, and left as it is for any other. */
    twostate predicate ArmedIfEarliest(when: int)
      reads this
    {
      if old(timers) == [] || when < old(timers)[0].when then ArmedFor(timerfd, when)
      else timerfd == old(timerfd)
    }

    method AddTimerInLoop(addr: nat)
      requires Agree(heap, timers, active) && addr in heap && IdAt(heap, addr) !in active
      modifies this`timers, this`active, this`timerfd
      ensures ArmedIfEarliest(heap[addr].expiration)
      ensures EntryAt(heap, addr) !in old(timers) && timers == Inserted(old(timers), EntryAt(heap, addr))
      ensures active == old(active) + {IdAt(heap, addr)}
      ensures CoverageKept()
    {
      var earliestChanged := Insert(addr);
      if earliestChanged {
        ResetTimerfd(heap[addr].expiration);
      }
      InsertCoverage(old(timerfd), timerfd, old(timers), EntryAt(heap, addr));
    }

    /** `new Timer`, then addTimerInLoop. */
    method FileNewTimer(addr: Addr, t: Timer)
      requires Agree(heap, timers, active) && addr !in heap && t.sequence == created + 1
      modifies this`heap, this`created, this`timers, this`active, this`timerfd
      ensures Contents() == Added(old(Contents()), addr, t)
      ensures CoverageKept() && ArmedIfEarliest(t.expiration)
    {
      NewTimerUnfiled(heap, timers, active, addr, t);
      created := t.sequence;
      heap := heap[addr := t];
      AddTimerInLoop(addr);
    }

    method AddTimer(addr: Addr, when: int, interval: real) returns (id: TimerId)
      requires Valid() && addr !in heap
      modifies this`heap, this`created, this`timers, this`active, this`timerfd
      ensures Valid() && id == TimerId(addr, old(created) + 1)
      ensures View() == UserStep(old(View()), Add(addr, when, interval))
      ensures CoverageKept() && ArmedIfEarliest(when)
    {
      var t := Timer(when, interval, created + 1);
      AddedMeans(Contents(), addr, t, canceling, clock);
      FileNewTimer(addr, t);
      id := TimerId(addr, t.sequence);
    }

    /** Somebody creates a timer for another queue. */
    method CreateElsewhere()
      requires Valid()
      modifies this`created
      ensures Valid() && View() == UserStep(old(View()), Elsewhere)
      ensures CoverageKept()
    {
      created := created + 1;
    }

    method CancelInLoop(id: TimerId)
      requires Valid()
      modifies this`heap, this`timers, this`active, this`canceling
      ensures Valid() && View() == UserStep(old(View()), Cancel(id))
      ensures CoverageKept()
    {
      if id in active {
        ghost var was := Contents();
        AgreeErase(heap, timers, active, id);
        RemovedMeans(was, id, canceling, clock);
        EraseCoverage(timerfd, timers, EntryAt(heap, id.addr));
        timers := Erased(timers, EntryAt(heap, id.addr));
        heap := heap - {id.addr};
        active := active - {id};
        assert Contents() == Removed(was, id);
        return;
      }
      UnfiledMeans(Contents(), id, canceling, clock);
      if calling {
        canceling := canceling + {id};
      }
    }

    /** One expired timer leaves `activeTimers_`. */
    method EraseOne(e: Entry, ghost all: seq<Entry>, ghost i: nat)
      requires i < |all| && all[i] == e && Sorted(all) && SplitAt(heap, all, i, active, running)
      modifies this`active, this`running
      ensures SplitAt(heap, all, i + 1, active, running)
      ensures e.addr in heap && IdAt(heap, e.addr) in old(active)
      ensures active == old(active) - {IdAt(heap, e.addr)} && running == old(running) + {IdAt(heap, e.addr)}
    {
      ExpireOne(heap, all, i, active, running);
      var id := IdAt(heap, e.addr);
      running := running + {id};
      active := active - {id};
    }

    /** The loop of getExpired: the expired timers leave `activeTimers_`, in order. */
    method EraseActive(expired: seq<Entry>, ghost rest: seq<Entry>)
      requires Agree(heap, expired + rest, active) && running == {}
      modifies this`active, this`running
      ensures running <= old(active) && active == old(active) - running
      ensures Agree(heap, rest, active) && Agree(heap, expired, running)
    {
      ghost var all := expired + rest;
      assert all[0..] == all && all[..0] == [];
      var i := 0;
      while i < |expired|
        invariant 0 <= i <= |expired|
        invariant SplitAt(heap, all, i, active, running)
        invariant active == old(active) - running && running <= old(active)
      {
        EraseOne(expired[i], all, i);
        i := i + 1;
      }
      assert all[i..] == rest && all[..i] == expired;
    }

    /** The expired entries, in order, out of both indexes. */
    method GetExpired(now: int) returns (expired: seq<Entry>)
      requires Agree(heap, timers, active) && (forall e | e in timers :: e.addr < UINTPTR_MAX) && running == {}
      modifies this`timers, this`active, this`batch, this`running
      ensures expired == batch == old(timers)[..DueCount(old(timers), now)]
      ensures timers == old(timers)[DueCount(old(timers), now)..]
      ensures running <= old(active) && active == old(active) - running
      ensures Agree(heap, timers, active) && Agree(heap, expired, running)
    {
      var k := DueCount(timers, now);
      expired := timers[..k];
      assert expired + timers[k..] == timers;
      timers := timers[k..];
      batch := expired;
      EraseActive(expired, timers);
    }

    /** Timer::restart on a repeating timer, then `insert`. */
    method RestartAndInsert(addr: nat, now: int)
      requires Agree(heap, timers, active) && addr in heap && IdAt(heap, addr) !in active
      requires heap[addr].interval > 0.0 && now > 0
      modifies this`heap, this`timers, this`active
      ensures var t := old(heap[addr]).(expiration := AddTime(now, old(heap[addr].interval)));
              && heap == old(heap)[addr := t]
              && Entry(t.expiration, addr) !in old(timers)
              && timers == Inserted(old(timers), Entry(t.expiration, addr))
              && active == old(active) + {IdAt(old(heap), addr)}
      ensures old(PastCovered(timerfd, timers)) ==> PastCovered(timerfd, timers)
    {
      ghost var was := heap;
      heap := heap[addr := heap[addr].(expiration := AddTime(now, heap[addr].interval))];
      assert SameAt(was, heap, active);
      AgreeElsewhere(was, heap, timers, active);
      var _ := Insert(addr);
    }

    /** A repeating timer that was not cancelled is restarted and filed, any other deleted. */
    method ResetOne(e: Entry, now: int)
      requires Contents().Consistent() && batch != [] && batch[0] == e && now > 0
      modifies this`heap, this`timers, this`active, this`batch, this`running
      ensures Current(old(heap), e)
      ensures Contents() == Released(old(Contents()), IdAt(old(heap), e.addr), canceling, now)
      ensures old(PastCovered(timerfd, timers)) ==> PastCovered(timerfd, timers)
    {
      FrontOfBatch(Contents());
      var id := IdAt(heap, e.addr);
      if heap[e.addr].interval > 0.0 && id !in canceling {
        RestartAndInsert(e.addr, now);
      } else {
        heap := heap - {e.addr};
      }
      batch := batch[1..];
      running := running - {id};
    }

    /** One round of the loop of `reset`: what ending the batch will amount to does not change. */
    method ResetRound(e: Entry, now: int)
      requires Contents().Consistent() && batch != [] && batch[0] == e && now > 0
      requires PastCovered(timerfd, timers)
      modifies this`heap, this`timers, this`active, this`batch, this`running
      ensures Contents().Consistent() && batch == old(batch)[1..] && PastCovered(timerfd, timers)
      ensures Step(Contents().Means(canceling, Some(now)), End)
           == Step(old(Contents().Means(canceling, Some(now))), End)
    {
      FrontOfBatch(Contents());
      ReleasedMeans(Contents(), IdAt(heap, e.addr), canceling, now);
      ResetOne(e, now);
    }

    /** The end of `reset`: arm for the earliest timer, if its expiration is a valid timestamp. */
    method ArmForEarliest()
      requires Agree(heap, timers, active) && PastCovered(timerfd, timers)
      modifies this`timerfd
      ensures Covered(timerfd, timers) && ArmedExactly(timerfd, timers)
    {
      PassTime();
      if timers != [] {
        assert timers[0] in timers;
        var nextExpire := heap[timers[0].addr].expiration;
        if nextExpire > 0 {
          ResetTimerfd(nextExpire);
        }
      }
      PassTime();
    }

    method ReleaseBatch(expired: seq<Entry>, now: int)
      requires Contents().Consistent() && batch == expired && now > 0
      requires PastCovered(timerfd, timers)
      modifies this`heap, this`timers, this`active, this`batch, this`running
      ensures Contents().Consistent() && batch == [] && PastCovered(timerfd, timers)
      ensures Step(Contents().Means(canceling, Some(now)), End)
           == Step(old(Contents().Means(canceling, Some(now))), End)
    {
      var i := 0;
      while i < |expired|
        invariant 0 <= i <= |expired| && batch == expired[i..]
        invariant Contents().Consistent() && PastCovered(timerfd, timers)
        invariant Step(Contents().Means(canceling, Some(now)), End)
               == Step(old(Contents().Means(canceling, Some(now))), End)
      {
        ResetRound(expired[i], now);
        i := i + 1;
      }
    }

    method Reset(expired: seq<Entry>, now: int)
      requires Contents().Consistent() && batch == expired && !calling && clock.None? && now > 0
      requires PastCovered(timerfd, timers)
      modifies this`heap, this`timers, this`active, this`batch, this`running, this`timerfd
      ensures Valid() && Covered(timerfd, timers) && ArmedExactly(timerfd, timers)
      ensures View() == Step(old(Contents().Means(canceling, Some(now))), End)
    {
      ReleaseBatch(expired, now);
      EndReset(now);
    }

    method EndReset(ghost now: int)
      requires Contents().Consistent() && batch == [] && !calling && clock.None? && PastCovered(timerfd, timers)
      modifies this`timerfd
      ensures Valid() && Covered(timerfd, timers) && ArmedExactly(timerfd, timers)
      ensures View() == Step(old(Contents().Means(canceling, Some(now))), End)
    {
      EmptyBatchEnds(Contents(), canceling, now);
      ArmForEarliest();
      assert Contents() == old(Contents());
    }

    /** One call a callback makes. An address still in use is none the allocator would return. */
    method UserCall(op: UserOp)
      requires Valid()
      modifies this`heap, this`created, this`timers, this`active, this`timerfd, this`canceling
      ensures Valid() && View() == UserStep(old(View()), op)
      ensures CoverageKept()
    {
      match op {
        case Add(addr, when, interval) =>
          OccupiedMeans(Contents(), addr, canceling, clock);
          if addr !in heap {
            var _ := AddTimer(addr, when, interval);
          }
        case Cancel(id) => CancelInLoop(id);
        case Elsewhere => CreateElsewhere();
      }
    }

    /** Timer::run: an arbitrary callback, re-entering the queue as often as it likes. */
    method RunCallback(script: seq<UserOp>)
      requires Valid() && PastCovered(timerfd, timers)
      modifies this`heap, this`created, this`timers, this`active, this`timerfd, this`canceling
      ensures Valid() && PastCovered(timerfd, timers)
      ensures View() == UserSteps(old(View()), script)
    {
      var i := 0;
      assert script[0..] == script;
      while i < |script|
        invariant 0 <= i <= |script| && Valid() && PastCovered(timerfd, timers)
        invariant UserSteps(View(), script[i..]) == UserSteps(old(View()), script)
      {
        assert script[i..][0] == script[i] && script[i..][1..] == script[i + 1..];
        PassTime();
        UserCall(script[i]);
        i := i + 1;
      }
      PassTime();
    }

    /** readTimerfd disarms a timerfd that has fired; from one that has been armed anew since the poll
        it reads nothing. */
    method ReadTimerfd()
      modifies this`timerfd
      ensures timerfd == if old(timerfd).Fired? then Idle else old(timerfd)
    {
      if timerfd.Fired? {
        timerfd := Idle;
      }
    }

    /** readTimerfd and getExpired. */
    method TakeExpired(now: int) returns (expired: seq<Entry>)
      requires Valid() && !calling && now > 0
      modifies this`timerfd, this`timers, this`active, this`batch, this`running
      ensures Contents().Consistent() && PastCovered(timerfd, timers)
      ensures Contents().Means({}, Some(now)) == Step(old(View()), Begin(now))
      ensures expired == batch == old(timers)[..DueCount(old(timers), now)]
    {
      ghost var was := Contents();
      assert forall e | e in timers :: Current(heap, e);
      ReadTimerfd();
      NothingPastLeft(timers, now, timerfd);
      expired := GetExpired(now);
      BeganMeans(was, Contents(), now, canceling);
    }

    /** The first half of handleRead, up to the first callback. */
    method BeginBatch(now: int) returns (expired: seq<Entry>)
      requires Valid() && !calling && now > 0
      modifies this`timerfd, this`timers, this`active, this`batch, this`running, this`clock, this`calling,
               this`canceling
      ensures Valid() && calling && clock == Some(now) && PastCovered(timerfd, timers)
      ensures View() == Step(old(View()), Begin(now))
      ensures expired == batch == old(timers)[..DueCount(old(timers), now)]
    {
      expired := TakeExpired(now);
      ghost var taken := Contents();
      clock := Some(now);
      calling := true;
      canceling := {};
      assert Contents() == taken;
    }

    /** One round of the loop of handleRead: the timer is alive when its callback is called. */
    method RunOne(e: Entry, script: seq<UserOp>) returns (id: TimerId)
      requires Valid() && PastCovered(timerfd, timers) && e in batch
      modifies this`heap, this`created, this`timers, this`active, this`timerfd, this`canceling
      ensures Valid() && PastCovered(timerfd, timers)
      ensures View() == UserSteps(old(View()), script)
      ensures e.addr in old(heap) && id == IdAt(old(heap), e.addr) && id in old(View()).running
    {
      id := IdAt(heap, e.addr);
      RunCallback(script);
    }

    method RunExpired(expired: seq<Entry>, scripts: nat -> seq<UserOp>) returns (ran: seq<TimerId>)
      requires Valid() && PastCovered(timerfd, timers) && batch == expired
      modifies this`heap, this`created, this`timers, this`active, this`timerfd, this`canceling
      ensures Valid() && PastCovered(timerfd, timers)
      ensures View() == Callbacks(old(View()), scripts, |expired|)
      ensures Lists(old(heap), expired, ran) && AliveWhenRun(old(View()), scripts, ran)
    {
      ran := [];
      var i := 0;
      while i < |expired|
        invariant 0 <= i <= |expired| && Valid() && PastCovered(timerfd, timers)
        invariant View() == Callbacks(old(View()), scripts, i)
        invariant Lists(old(heap), expired[..i], ran) && AliveWhenRun(old(View()), scripts, ran)
      {
        SameTimerStill(old(Contents()), Contents(), expired[i]);
        var id := RunOne(expired[i], scripts(i));
        OneMoreRun(old(heap), expired, old(View()), scripts, ran, id);
        ran := ran + [id];
        i := i + 1;
      }
      assert expired[..i] == expired;
    }

    /** The second half of handleRead, after the last callback. */
    method EndBatch(expired: seq<Entry>, now: int)
      requires Valid() && clock == Some(now) && now > 0 && batch == expired && PastCovered(timerfd, timers)
      modifies this
      ensures Valid() && !calling && Covered(timerfd, timers) && ArmedExactly(timerfd, timers)
      ensures View() == Step(old(View()), End)
    {
      calling, clock := false, None;
      Reset(expired, now);
    }

    /** The timerfd is readable: one whole batch, callbacks included. */
    method HandleRead(now: int, scripts: nat -> seq<UserOp>) returns (ran: seq<TimerId>)
      requires Valid() && !calling && now > 0
      modifies this
      ensures Valid() && !calling && Covered(timerfd, timers) && ArmedExactly(timerfd, timers)
      ensures View() == Step(Callbacks(Step(old(View()), Begin(now)), scripts, |ran|), End)
      ensures InDueOrder(old(View()), now, ran)
      ensures AliveWhenRun(Step(old(View()), Begin(now)), scripts, ran)
      ensures BatchLeaves(old(View()), now, scripts, |ran|, View())
    {
      MeansInv(Contents(), canceling, clock);
      BatchOutcome(View(), now, scripts, DueCount(timers, now));
      var expired := BeginBatch(now);
      ghost var begun := Contents();
      ran := RunExpired(expired, scripts);
      BatchInDueOrder(begun, old(View()), now, ran);
      EndBatch(expired, now);
    }
  }

  // ----- Runs of the queue -----

  /** What the event loop does to a queue. Another queue's timers and the kernel have their say too. */
  datatype QueueEvent =
    | Call(op: UserOp)
    | Expiry
    | Readable(now: int, scripts: nat -> seq<UserOp>)

  /** The event as moves of a run, given how many callbacks it made. */
  ghost function MovesOf(e: QueueEvent, callbacks: nat): seq<Move> {
    match e
    case Call(op) => [User(op)]
    case Expiry => []
    case Readable(now, scripts) => BatchMoves(now, scripts, callbacks)
  }

  /** One event, on a real queue: a piece of a run, after which the timerfd is again early enough. */
  method Perform(q: TimerQueue, e: QueueEvent) returns (ran: seq<TimerId>)
    requires q.Valid() && !q.calling && Covered(q.timerfd, q.timers)
    requires e.Readable? ==> e.now > 0
    modifies q
    ensures q.Valid() && !q.calling && Covered(q.timerfd, q.timers)
    ensures LegalRun(old(q.View()), MovesOf(e, |ran|)) && q.View() == Run(old(q.View()), MovesOf(e, |ran|))
    ensures if e.Readable? then InDueOrder(old(q.View()), e.now, ran) else ran == []
  {
    ran := [];
    ghost var was := q.View();
    match e {
      case Call(op) =>
        q.UserCall(op);
        OneUserMove(was, op);
      case Expiry =>
        if q.timerfd.Armed? {
          q.Expire();
        }
      case Readable(now, scripts) =>
        ran := q.HandleRead(now, scripts);
        BatchMovesRun(was, now, scripts, |ran|);
    }
  }
}
