/** Appending to one ledger file from many goroutines of one process.

    The protocol of `lockForLedger` and `Append` is modelled as atomic steps: the registry lookup,
    the tail read, the load-or-store, taking the mutex, writing, publishing the new tail hash, and
    unlocking. Any goroutine may take its next step at any time. */
module LedgerAppend {
  import opened Hashing
  import opened Hex
  import opened Ledger
  import opened Wrappers

  type Gid = nat

  datatype Pc =
    | Called                              // about to look the path up in the registry
    | Missed                              // no lock registered: about to read the tail
    | HasTail(tail: Bytes)                // about to LoadOrStore a lock caching this tail
    | HasLock(lock: nat)                  // about to take this lock's mutex
    | Holding(lock: nat)                  // inside the critical section, nothing written
    | Written(lock: nat, hash: Bytes)     // entry on disk, cached tail not yet updated
    | Published(lock: nat)                // cached tail updated, mutex still held
    | Returned
    | Failed

  datatype Writer = Writer(entry: Entry, pc: Pc)

  datatype LedgerLock = LedgerLock(lastHash: Bytes, holder: Option<Gid>)

  /** `order` is a history variable: the goroutines in the order their entries reached the file. */
  datatype State = State(
    file: seq<Entry>, registry: Option<nat>, locks: seq<LedgerLock>, writers: map<Gid, Writer>, order: seq<Gid>)

  /** How reading the file went. It may always fail. A read racing a write may see anything; the step
      below allows that only once a lock is registered, for only a lock holder writes. */
  datatype ReadResult = Clean | Torn(tail: Bytes) | ReadError

  datatype Action =
    | Call(g: Gid, entry: Entry)
    | Lookup(g: Gid)
    | ReadTail(g: Gid, result: ReadResult)
    | LoadOrStore(g: Gid)
    | Acquire(g: Gid)
    | Write(g: Gid, ioOk: bool)
    | Publish(g: Gid)
    | Release(g: Gid)

  function At(s: State, g: Gid): Pc
  {
    if g in s.writers then s.writers[g].pc else Returned
  }

  function Move(s: State, g: Gid, pc: Pc): State
    requires g in s.writers
  {
    s.(writers := s.writers[g := s.writers[g].(pc := pc)])
  }

  function Unlock(s: State, lock: nat): State
    requires lock < |s.locks|
  {
    s.(locks := s.locks[lock := s.locks[lock].(holder := None)])
  }

  /** One atomic step; an action that is not enabled leaves the state alone. */
  function Step(sha: Sha, canon: Canon, s: State, a: Action): State
  {
    match (a, At(s, a.g))
    case (Call(g, entry), _) =>
      if g in s.writers then s else s.(writers := s.writers[g := Writer(entry, Called)])
    case (Lookup(g), Called) =>
      (match s.registry case Some(l) => Move(s, g, HasLock(l)) case None => Move(s, g, Missed))
    case (ReadTail(g, result), Missed) =>
      if result.ReadError? then Move(s, g, Failed)
      else Move(s, g, HasTail(if result.Torn? && s.registry.Some? then result.tail else Tail(s.file)))
    case (LoadOrStore(g), HasTail(tail)) =>
      (match s.registry
       case Some(l) => Move(s, g, HasLock(l))
       case None =>
         var stored := s.(registry := Some(|s.locks|), locks := s.locks + [LedgerLock(tail, None)]);
         Move(stored, g, HasLock(|s.locks|)))
    case (Acquire(g), HasLock(l)) =>
      if l < |s.locks| && s.locks[l].holder.None?
      then Move(s.(locks := s.locks[l := s.locks[l].(holder := Some(g))]), g, Holding(l))
      else s
    case (Write(g, ioOk), Holding(l)) =>
      if l >= |s.locks| then s else
      (match Link(sha, canon, s.writers[g].entry, s.locks[l].lastHash)
       case Some(x) =>
         if ioOk then Move(s.(file := s.file + [x], order := s.order + [g]), g, Written(l, x.hash))
         else Unlock(Move(s, g, Failed), l)
       case None => Unlock(Move(s, g, Failed), l))
    case (Publish(g), Written(l, h)) =>
      if l >= |s.locks| then s
      else Move(s.(locks := s.locks[l := s.locks[l].(lastHash := h)]), g, Published(l))
    case (Release(g), Published(l)) =>
      if l >= |s.locks| then s else Unlock(Move(s, g, Returned), l)
    case _ => s
  }

  function Run(sha: Sha, canon: Canon, s: State, actions: seq<Action>): State
    decreases |actions|
  {
    if actions == [] then s else Run(sha, canon, Step(sha, canon, s, actions[0]), actions[1..])
  }

  function Initial(file: seq<Entry>): State { State(file, None, [], map[], []) }

  // ---- The invariant -----------------------------------------------------------------------

  predicate InCriticalSection(pc: Pc) { pc.Holding? || pc.Written? || pc.Published? }

  predicate HasWritten(s: State, g: Gid)
  {
    g in s.writers && (At(s, g).Written? || At(s, g).Published? || At(s, g).Returned?)
  }

  /** Before any lock is registered nobody can have written, so every tail read so far is current. */
  ghost predicate Unregistered(file0: seq<Entry>, s: State)
  {
    && s.locks == [] && s.file == file0
    && forall g | g in s.writers :: var pc := At(s, g);
         pc.Called? || pc.Missed? || pc.Failed? || (pc.HasTail? && pc.tail == Tail(file0))
  }

  /** Afterwards there is exactly one lock; its holder is the one goroutine in the critical section
      and its cached hash is the tail, except between a write and its publication. */
  ghost predicate Registered(s: State)
  {
    && s.registry == Some(0) && |s.locks| == 1
    && (forall g | g in s.writers :: var pc := At(s, g);
          && ((pc.HasLock? || InCriticalSection(pc)) ==> pc.lock == 0)
          && (InCriticalSection(pc) <==> s.locks[0].holder == Some(g)))
    && (match s.locks[0].holder
        case None => s.locks[0].lastHash == Tail(s.file)
        case Some(g) =>
          g in s.writers
          && if At(s, g).Written? then At(s, g).hash == Tail(s.file) else s.locks[0].lastHash == Tail(s.file))
  }

  /** The goroutines in `order` are distinct and are exactly those whose write succeeded. */
  ghost predicate OrderOk(s: State)
  {
    && (forall g | g in s.writers :: g in s.order <==> HasWritten(s, g))
    && (forall i | 0 <= i < |s.order| :: s.order[i] in s.writers && s.order[i] !in s.order[..i])
  }

  /** The file is the initial file followed by one linked entry per goroutine in `order`. */
  ghost predicate EventsOk(file0: seq<Entry>, s: State)
  {
    && |s.file| == |file0| + |s.order| && s.file[..|file0|] == file0
    && forall i | 0 <= i < |s.order| ::
         s.order[i] in s.writers && SameEvent(s.file[|file0| + i], s.writers[s.order[i]].entry)
  }

  /** Equal in everything but the two chain fields the writer fills in. */
  predicate SameEvent(x: Entry, e: Entry) { x.(prevHash := [], hash := []) == e.(prevHash := [], hash := []) }

  ghost predicate LockInv(file0: seq<Entry>, s: State)
  {
    if s.registry.None? then Unregistered(file0, s) else Registered(s)
  }

  ghost predicate Inv(sha: Sha, canon: Canon, file0: seq<Entry>, s: State)
  {
    ChainOk(sha, canon, s.file) && OrderOk(s) && EventsOk(file0, s) && LockInv(file0, s)
  }

  /** The steps up to registering a lock. */
  predicate Early(a: Action) { a.Call? || a.Lookup? || a.ReadTail? || a.LoadOrStore? }

  lemma EarlyStepsKeepLockInv(sha: Sha, canon: Canon, file0: seq<Entry>, s: State, a: Action)
    requires LockInv(file0, s) && Early(a)
    ensures LockInv(file0, Step(sha, canon, s, a))
  {
  }

  lemma LateStepsKeepLockInv(sha: Sha, canon: Canon, file0: seq<Entry>, s: State, a: Action)
    requires LockInv(file0, s) && !Early(a)
    ensures LockInv(file0, Step(sha, canon, s, a))
  {
  }

  lemma StepKeepsLockInv(sha: Sha, canon: Canon, file0: seq<Entry>, s: State, a: Action)
    requires LockInv(file0, s)
    ensures LockInv(file0, Step(sha, canon, s, a))
  {
    if Early(a) {
      EarlyStepsKeepLockInv(sha, canon, file0, s, a);
    } else {
      LateStepsKeepLockInv(sha, canon, file0, s, a);
    }
  }

  /** Only a successful write changes the file or who has written. */
  ghost predicate WroteNothing(s: State, t: State)
  {
    && t.file == s.file && t.order == s.order && s.writers.Keys <= t.writers.Keys
    && (forall g | g in s.writers :: t.writers[g].entry == s.writers[g].entry && HasWritten(t, g) == HasWritten(s, g))
    && (forall g | g in t.writers && g !in s.writers :: !HasWritten(t, g))
  }

  lemma CallWritesNothing(sha: Sha, canon: Canon, s: State, a: Action)
    requires a.Call?
    ensures WroteNothing(s, Step(sha, canon, s, a))
  {
  }

  lemma LookupWritesNothing(sha: Sha, canon: Canon, s: State, a: Action)
    requires a.Lookup?
    ensures WroteNothing(s, Step(sha, canon, s, a))
  {
  }

  lemma ReadTailWritesNothing(sha: Sha, canon: Canon, s: State, a: Action)
    requires a.ReadTail?
    ensures WroteNothing(s, Step(sha, canon, s, a))
  {
  }

  lemma LoadOrStoreWritesNothing(sha: Sha, canon: Canon, s: State, a: Action)
    requires a.LoadOrStore?
    ensures WroteNothing(s, Step(sha, canon, s, a))
  {
  }

  lemma AcquireWritesNothing(sha: Sha, canon: Canon, s: State, a: Action)
    requires a.Acquire?
    ensures WroteNothing(s, Step(sha, canon, s, a))
  {
  }

  lemma FailedWriteWritesNothing(sha: Sha, canon: Canon, s: State, a: Action)
    requires a.Write? && !a.ioOk
    ensures WroteNothing(s, Step(sha, canon, s, a))
  {
  }

  lemma LeavingWritesNothing(sha: Sha, canon: Canon, s: State, a: Action)
    requires a.Publish? || a.Release?
    ensures WroteNothing(s, Step(sha, canon, s, a))
  {
  }

  lemma OtherStepsWriteNothing(sha: Sha, canon: Canon, s: State, a: Action)
    requires !(a.Write? && a.ioOk)
    ensures WroteNothing(s, Step(sha, canon, s, a))
  {
    match a
    case Call(_, _) => CallWritesNothing(sha, canon, s, a);
    case Lookup(_) => LookupWritesNothing(sha, canon, s, a);
    case ReadTail(_, _) => ReadTailWritesNothing(sha, canon, s, a);
    case LoadOrStore(_) => LoadOrStoreWritesNothing(sha, canon, s, a);
    case Acquire(_) => AcquireWritesNothing(sha, canon, s, a);
    case Write(_, _) => FailedWriteWritesNothing(sha, canon, s, a);
    case Publish(_) => LeavingWritesNothing(sha, canon, s, a);
    case Release(_) => LeavingWritesNothing(sha, canon, s, a);
  }

  lemma WriteKeepsOrder(sha: Sha, canon: Canon, s: State, a: Action)
    requires OrderOk(s) && a.Write? && a.ioOk
    ensures OrderOk(Step(sha, canon, s, a))
  {
    var t := Step(sha, canon, s, a);
    if t.order != s.order {
      forall i | 0 <= i <= |s.order|
        ensures t.order[i] in t.writers && t.order[i] !in t.order[..i]
      {
        assert t.order[..i] == s.order[..i];
      }
    }
  }

  lemma WriteKeepsEvents(sha: Sha, canon: Canon, file0: seq<Entry>, s: State, a: Action)
    requires EventsOk(file0, s) && a.Write? && a.ioOk
    ensures EventsOk(file0, Step(sha, canon, s, a))
  {
    if At(s, a.g).Holding? && At(s, a.g).lock < |s.locks| {
      LinkKeepsEvent(sha, canon, s.writers[a.g].entry, s.locks[At(s, a.g).lock].lastHash);
    }
  }

  lemma LinkKeepsEvent(sha: Sha, canon: Canon, e: Entry, tail: Bytes)
    ensures var x := Link(sha, canon, e, tail); x.Some? ==> SameEvent(x.value, e)
  {
  }

  lemma StepKeepsOrder(sha: Sha, canon: Canon, file0: seq<Entry>, s: State, a: Action)
    requires OrderOk(s) && EventsOk(file0, s)
    ensures OrderOk(Step(sha, canon, s, a)) && EventsOk(file0, Step(sha, canon, s, a))
  {
    if a.Write? && a.ioOk {
      WriteKeepsOrder(sha, canon, s, a);
      WriteKeepsEvents(sha, canon, file0, s, a);
    } else {
      OtherStepsWriteNothing(sha, canon, s, a);
    }
  }

  lemma StepKeepsInv(sha: Sha, canon: Canon, file0: seq<Entry>, s: State, a: Action)
    requires Inv(sha, canon, file0, s)
    ensures Inv(sha, canon, file0, Step(sha, canon, s, a))
  {
    StepKeepsLockInv(sha, canon, file0, s, a);
    StepKeepsOrder(sha, canon, file0, s, a);
    if a.Write? && At(s, a.g).Holding? && Link(sha, canon, s.writers[a.g].entry, Tail(s.file)).Some? {
      LinkExtends(sha, canon, s.file, s.writers[a.g].entry);
    }
  }

  lemma StepExtendsFile(sha: Sha, canon: Canon, s: State, a: Action)
    ensures s.file <= Step(sha, canon, s, a).file
  {
    if !(a.Write? && a.ioOk) {
      OtherStepsWriteNothing(sha, canon, s, a);
    }
  }

  lemma {:induction false} RunKeepsInv(sha: Sha, canon: Canon, file0: seq<Entry>, s: State, actions: seq<Action>)
    requires Inv(sha, canon, file0, s)
    ensures Inv(sha, canon, file0, Run(sha, canon, s, actions))
    ensures s.file <= Run(sha, canon, s, actions).file
    decreases |actions|
  {
    if actions != [] {
      StepKeepsInv(sha, canon, file0, s, actions[0]);
      StepExtendsFile(sha, canon, s, actions[0]);
      RunKeepsInv(sha, canon, file0, Step(sha, canon, s, actions[0]), actions[1..]);
    }
  }

  // ---- The theorems ------------------------------------------------------------------------

  predicate Reachable(sha: Sha, canon: Canon, file0: seq<Entry>, actions: seq<Action>, s: State)
  {
    s == Run(sha, canon, Initial(file0), actions)
  }

  /** `order` lists each goroutine whose append succeeded exactly once, and the file is the initial one
      followed by their entries in that order. */
  ghost predicate IsLinearisation(file0: seq<Entry>, s: State, order: seq<Gid>)
  {
    && (forall i, j | 0 <= i < j < |order| :: order[i] != order[j])
    && (forall g :: g in order <==> g in s.writers && HasWritten(s, g))
    && |s.file| == |file0| + |order| && s.file[..|file0|] == file0
    && forall i | 0 <= i < |order| :: order[i] in s.writers && SameEvent(s.file[|file0| + i], s.writers[order[i]].entry)
  }

  /** Under every interleaving: the chain of the entries as they were appended is intact, the initial
      contents stay a prefix, the entries added are exactly those of the goroutines whose append
      succeeded, one each, and a free lock caches the tail on disk. What a reader of the file sees is
      module LedgerReread. */
  lemma AppendsLinearise(sha: Sha, canon: Canon, file0: seq<Entry>, actions: seq<Action>, s: State)
    requires ChainOk(sha, canon, file0) && Reachable(sha, canon, file0, actions, s)
    ensures ChainOk(sha, canon, s.file) && file0 <= s.file
    ensures IsLinearisation(file0, s, s.order)
    ensures |s.file| == |file0| + |set g | g in s.writers && HasWritten(s, g)|
    ensures forall l | 0 <= l < |s.locks| && s.locks[l].holder.None? :: s.locks[l].lastHash == Tail(s.file)
  {
    RunKeepsInv(sha, canon, file0, Initial(file0), actions);
    OrderCounts(s);
    forall i, j | 0 <= i < j < |s.order|
      ensures s.order[i] != s.order[j]
    {
      assert s.order[j] !in s.order[..j] && s.order[..j][i] == s.order[i];
    }
  }

  ghost function Elements(order: seq<Gid>): set<Gid> { set g | g in order }

  lemma OrderCounts(s: State)
    requires OrderOk(s)
    ensures |s.order| == |set g | g in s.writers && HasWritten(s, g)|
  {
    DistinctCount(s.order);
    assert Elements(s.order) == set g | g in s.writers && HasWritten(s, g);
  }

  lemma {:induction false} DistinctCount(order: seq<Gid>)
    requires forall i | 0 <= i < |order| :: order[i] !in order[..i]
    ensures |order| == |Elements(order)|
    decreases |order|
  {
    if order != [] {
      var n := |order| - 1;
      var shorter := order[..n];
      assert forall i | 0 <= i < n :: shorter[..i] == order[..i];
      DistinctCount(shorter);
      assert Elements(order) == Elements(shorter) + {order[n]};
    }
  }

  /** The steps of one whole call. */
  function WholeCall(g: Gid, entry: Entry): seq<Action>
  {
    [Call(g, entry), Lookup(g), ReadTail(g, Clean), LoadOrStore(g), Acquire(g), Write(g, true), Publish(g), Release(g)]
  }

  lemma RunFirst(sha: Sha, canon: Canon, s: State, a: Action, rest: seq<Action>)
    ensures Run(sha, canon, s, [a] + rest) == Run(sha, canon, Step(sha, canon, s, a), rest)
  {
    assert ([a] + rest)[1..] == rest;
  }

  /** Alone, the first four steps leave the caller with the registered lock, which caches the tail. */
  lemma AloneGetsLock(sha: Sha, canon: Canon, file0: seq<Entry>, s: State, g: Gid, entry: Entry,
      rest: seq<Action>) returns (t: State)
    requires LockInv(file0, s) && g !in s.writers
    requires s.registry.Some? ==> s.locks[0].holder.None?
    ensures t.file == s.file && t.locks == [LedgerLock(Tail(s.file), None)]
    ensures g in t.writers && t.writers[g] == Writer(entry, HasLock(0))
    ensures Run(sha, canon, s, [Call(g, entry), Lookup(g), ReadTail(g, Clean), LoadOrStore(g)] + rest)
         == Run(sha, canon, t, rest)
  {
    var s1 := Step(sha, canon, s, Call(g, entry));
    var s2 := Step(sha, canon, s1, Lookup(g));
    var s3 := Step(sha, canon, s2, ReadTail(g, Clean));
    t := Step(sha, canon, s3, LoadOrStore(g));
    var r3 := [LoadOrStore(g)] + rest;
    var r2 := [ReadTail(g, Clean)] + r3;
    var r1 := [Lookup(g)] + r2;
    RunFirst(sha, canon, s, Call(g, entry), r1);
    RunFirst(sha, canon, s1, Lookup(g), r2);
    RunFirst(sha, canon, s2, ReadTail(g, Clean), r3);
    RunFirst(sha, canon, s3, LoadOrStore(g), rest);
    assert [Call(g, entry), Lookup(g), ReadTail(g, Clean), LoadOrStore(g)] + rest == [Call(g, entry)] + r1;
  }

  /** Holding the lock, the last four steps write the linked entry and return. */
  lemma AloneWrites(sha: Sha, canon: Canon, s: State, g: Gid)
    requires g in s.writers && At(s, g) == HasLock(0)
    requires s.locks == [LedgerLock(Tail(s.file), None)]
    requires Link(sha, canon, s.writers[g].entry, Tail(s.file)).Some?
    ensures var t := Run(sha, canon, s, [Acquire(g), Write(g, true), Publish(g), Release(g)]);
      && t.file == s.file + [Link(sha, canon, s.writers[g].entry, Tail(s.file)).value]
      && g in t.writers && At(t, g).Returned?
  {
    var s1 := AloneEnters(sha, canon, s, g);
    var s2 := AloneWritesEntry(sha, canon, s1, g);
    AloneLeaves(sha, canon, s2, g);
    RunFour(sha, canon, s, Acquire(g), Write(g, true), Publish(g), Release(g));
  }

  lemma AloneEnters(sha: Sha, canon: Canon, s: State, g: Gid) returns (t: State)
    requires g in s.writers && At(s, g) == HasLock(0) && s.locks == [LedgerLock(Tail(s.file), None)]
    ensures t == Step(sha, canon, s, Acquire(g))
    ensures t.file == s.file && t.locks == [LedgerLock(Tail(s.file), Some(g))]
    ensures g in t.writers && t.writers[g] == Writer(s.writers[g].entry, Holding(0))
  {
    t := Step(sha, canon, s, Acquire(g));
  }

  lemma AloneWritesEntry(sha: Sha, canon: Canon, s: State, g: Gid) returns (t: State)
    requires g in s.writers && At(s, g) == Holding(0) && s.locks == [LedgerLock(Tail(s.file), Some(g))]
    requires Link(sha, canon, s.writers[g].entry, Tail(s.file)).Some?
    ensures t == Step(sha, canon, s, Write(g, true))
    ensures t.file == s.file + [Link(sha, canon, s.writers[g].entry, Tail(s.file)).value]
    ensures g in t.writers && At(t, g).Written? && At(t, g).lock == 0 && |t.locks| == 1
  {
    t := Step(sha, canon, s, Write(g, true));
  }

  lemma AloneLeaves(sha: Sha, canon: Canon, s: State, g: Gid)
    requires g in s.writers && At(s, g).Written? && At(s, g).lock == 0 && |s.locks| == 1
    ensures var t := Step(sha, canon, Step(sha, canon, s, Publish(g)), Release(g));
      t.file == s.file && g in t.writers && At(t, g).Returned?
  {
  }

  lemma RunFour(sha: Sha, canon: Canon, s: State, a: Action, b: Action, c: Action, d: Action)
    ensures Run(sha, canon, s, [a, b, c, d])
         == Step(sha, canon, Step(sha, canon, Step(sha, canon, Step(sha, canon, s, a), b), c), d)
  {
    var s1 := Step(sha, canon, s, a);
    var s2 := Step(sha, canon, s1, b);
    var s3 := Step(sha, canon, s2, c);
    assert [a, b, c, d] == [a] + [b, c, d] && [b, c, d] == [b] + [c, d] && [c, d] == [c] + [d] && [d] == [d] + [];
    RunFirst(sha, canon, s, a, [b, c, d]);
    RunFirst(sha, canon, s1, b, [c, d]);
    RunFirst(sha, canon, s2, c, [d]);
    RunFirst(sha, canon, s3, d, []);
  }

  /** A call that runs alone returns, with its entry appended and linked behind the tail. */
  lemma AloneAppends(sha: Sha, canon: Canon, file0: seq<Entry>, s: State, g: Gid, entry: Entry)
    requires LockInv(file0, s) && g !in s.writers
    requires s.registry.Some? ==> s.locks[0].holder.None?
    requires Link(sha, canon, entry, Tail(s.file)).Some?
    ensures var t := Run(sha, canon, s, WholeCall(g, entry));
      t.file == s.file + [Link(sha, canon, entry, Tail(s.file)).value] && g in t.writers && At(t, g).Returned?
  {
    var rest := [Acquire(g), Write(g, true), Publish(g), Release(g)];
    var t := AloneGetsLock(sha, canon, file0, s, g, entry, rest);
    AloneWrites(sha, canon, t, g);
    assert WholeCall(g, entry) == [Call(g, entry), Lookup(g), ReadTail(g, Clean), LoadOrStore(g)] + rest;
  }

  // ---- The code of one caller --------------------------------------------------------------

  /** The syncer and the process-wide cached tail of its file, as one caller sees them while no
      other holds the mutex. */
  class LedgerFileSync {
    var file: seq<Entry>
    var cachedTail: Option<Bytes>  // the registered lock's lastHash; None before registration

    ghost predicate Valid()
      reads this
    {
      cachedTail.Some? ==> cachedTail.value == Tail(file)
    }

    constructor (existing: seq<Entry>)
      ensures Valid() && file == existing
    {
      file := existing;
      cachedTail := None;
    }

    method ReadLastHash() returns (last: Bytes)
      ensures last == Tail(file)
    {
      last := Genesis();
      for i := 0 to |file|
        invariant last == Predecessor(file, i)
      {
        last := file[i].hash;
      }
    }

    method LockForLedger()
      requires Valid()
      modifies this`cachedTail
      ensures Valid() && cachedTail == Some(Tail(file))
    {
      if cachedTail.None? {
        var last := ReadLastHash();
        cachedTail := Some(last);
      }
    }

    /** Appends one linked entry, or on any failure leaves the file alone; either way an intact
        chain stays intact and the cached tail stays true. */
    method Append(sha: Sha, canon: Canon, entry: Entry, ioOk: bool) returns (ok: bool)
      requires Valid()
      modifies this
      ensures Valid()
      ensures ok <==> ioOk && Link(sha, canon, entry, old(Tail(file))).Some?
      ensures file == if ok then old(file) + [Link(sha, canon, entry, old(Tail(file))).value] else old(file)
      ensures old(ChainOk(sha, canon, file)) ==> ChainOk(sha, canon, file)
    {
      LockForLedger();
      var linked := Link(sha, canon, entry, cachedTail.value);
      if linked.None? || !ioOk {
        return false;
      }
      if ChainOk(sha, canon, file) {
        LinkExtends(sha, canon, file, entry);
      }
      file := file + [linked.value];
      cachedTail := Some(linked.value.hash);
      return true;
    }
  }
}
