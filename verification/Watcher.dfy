/**
  The process watcher of daemon/watch.go: a registry of VMM processes under two maps, by VM and
  by pidfd, that turns a readable descriptor into an exit event carrying the record generation
  the VM was watched under.

  The watcher's methods run under its mutex. Opening a pidfd happens between two critical sections of
  ensure, so ensure is two methods here; a descriptor number is free again once it is closed, so a
  stale readiness report may name a descriptor that now belongs to another VM.
*/
module Watcher {
  import opened Common

  datatype Key = Key(backend: string, vmID: string)

  datatype Proc = Proc(pid: nat, startTime: nat)

  datatype Entry = Entry(proc: Proc, gen: nat, fd: int)

  datatype Event = Event(key: Key, gen: nat)

  datatype Registry = Registry(byKey: map<Key, Entry>, byFD: map<int, Key>)

  const EMPTY := Registry(map[], map[])

  /** The two maps are inverse to each other. */
  predicate Inverse(r: Registry) {
    && (forall k | k in r.byKey :: r.byKey[k].fd in r.byFD && r.byFD[r.byKey[k].fd] == k)
    && (forall fd | fd in r.byFD :: r.byFD[fd] in r.byKey && r.byKey[r.byFD[fd]].fd == fd)
  }

  // ----- what each critical section does to the registry

  function Evicted(r: Registry, key: Key): Registry
    requires key in r.byKey
  {
    Registry(r.byKey - {key}, r.byFD - {r.byKey[key].fd})
  }

  function Dropped(r: Registry, key: Key): Registry { if key in r.byKey then Evicted(r, key) else r }

  /** ensure's first section: a watch for another process or generation gives way. */
  function Outdated(r: Registry, key: Key, proc: Proc, gen: nat): Registry {
    if key in r.byKey && r.byKey[key].proc == proc && r.byKey[key].gen == gen then r else Dropped(r, key)
  }

  function Added(r: Registry, key: Key, proc: Proc, gen: nat, fd: int): Registry {
    Registry(r.byKey[key := Entry(proc, gen, fd)], r.byFD[fd := key])
  }

  predicate Absent(key: Key, backend: string, seen: set<string>) { key.backend == backend && key.vmID !in seen }

  function Kept(r: Registry, gone: set<Key>): Registry {
    Registry(map k | k in r.byKey && k !in gone :: r.byKey[k],
             map fd | fd in r.byFD && r.byFD[fd] !in gone :: r.byFD[fd])
  }

  function AbsentKeys(r: Registry, backend: string, seen: set<string>): set<Key> {
    set k | k in r.byKey && Absent(k, backend, seen)
  }

  function Fired(r: Registry, fd: int): (Registry, Option<Event>)
    requires Inverse(r)
  {
    if fd in r.byFD then (Evicted(r, r.byFD[fd]), Some(Event(r.byFD[fd], r.byKey[r.byFD[fd]].gen))) else (r, None)
  }

  lemma KeptOneMore(r: Registry, gone: set<Key>, k: Key)
    requires Inverse(r) && k in r.byKey && k !in gone
    ensures k in Kept(r, gone).byKey && Evicted(Kept(r, gone), k) == Kept(r, gone + {k})
  {
    assert forall fd | fd in r.byFD :: r.byFD[fd] == k <==> fd == r.byKey[k].fd;
    var a, b := Evicted(Kept(r, gone), k), Kept(r, gone + {k});
    assert a.byKey == b.byKey;
    assert a.byFD == b.byFD;
  }

  // ----- the watcher

  class ProcWatcher {
    var byKey: map<Key, Entry>
    var byFD: map<int, Key>
    /** The pidfds the watcher holds open. */
    var open: set<int>
    /** The exits queue. */
    var exits: seq<Event>

    function Registered(): Registry
      reads this
    {
      Registry(byKey, byFD)
    }

    /** The maps are inverse and the open descriptors are exactly the registered ones: none leaks. */
    predicate Valid()
      reads this
    {
      Inverse(Registered()) && open == byFD.Keys
    }

    constructor ()
      ensures Valid() && Registered() == EMPTY && open == {} && exits == []
    {
      byKey, byFD, open, exits := map[], map[], {}, [];
    }

    method EvictLocked(key: Key, fd: int)
      requires Valid() && key in byKey && byKey[key].fd == fd
      modifies this`byKey, this`byFD, this`open
      ensures Valid() && Registered() == Evicted(old(Registered()), key) && open == old(open) - {fd}
      ensures byKey == old(byKey) - {key} && byFD == old(byFD) - {fd}
    {
      byKey := byKey - {key};
      byFD := byFD - {fd};
      open := open - {fd};
    }

    /** ensure up to the pidfd open; go is false when the same process and generation is watched already. */
    method EnsureEvict(key: Key, proc: Proc, gen: nat) returns (go: bool)
      requires Valid()
      modifies this`byKey, this`byFD, this`open
      ensures Valid() && Registered() == Outdated(old(Registered()), key, proc, gen)
      ensures go <==> !(key in old(byKey) && old(byKey)[key].proc == proc && old(byKey)[key].gen == gen)
      ensures go ==> byKey == old(byKey) - {key}
      ensures !go ==> byKey == old(byKey) && byFD == old(byFD)
    {
      if key in byKey {
        var cur := byKey[key];
        if cur.proc == proc && cur.gen == gen {
          return false;
        }
        EvictLocked(key, cur.fd);
      }
      go := true;
    }

    /**
      The rest of ensure. The kernel hands out a number that is not open, if it hands out any; again is
      the process the pid names after the open; added is the poller's answer.
    */
    method EnsureAdd(key: Key, proc: Proc, gen: nat, got: Option<int>, again: Option<Proc>, added: bool)
      requires Valid() && key !in byKey && (got.Some? ==> got.value !in open)
      modifies this`byKey, this`byFD, this`open
      ensures Valid()
      ensures Registered() == (if got.Some? && again == Some(proc) && added
                               then Added(old(Registered()), key, proc, gen, got.value)
                               else old(Registered()))
      ensures byKey == if got.Some? && again == Some(proc) && added then old(byKey)[key := Entry(proc, gen, got.value)]
                       else old(byKey)
    {
      if got.None? {
        return;
      }
      var fd := got.value;
      open := open + {fd};
      if again != Some(proc) {
        open := open - {fd};
        return;
      }
      if !added {
        open := open - {fd};
        return;
      }
      byKey := byKey[key := Entry(proc, gen, fd)];
      byFD := byFD[fd := key];
    }

    method Drop(key: Key)
      requires Valid()
      modifies this`byKey, this`byFD, this`open
      ensures Valid() && Registered() == Dropped(old(Registered()), key) && byKey == old(byKey) - {key}
    {
      if key in byKey {
        EvictLocked(key, byKey[key].fd);
      }
    }

    method DropAbsent(backend: string, seen: set<string>)
      requires Valid()
      modifies this`byKey, this`byFD, this`open
      ensures Valid()
      ensures Registered() == Kept(old(Registered()), AbsentKeys(old(Registered()), backend, seen))
      ensures forall k :: k in byKey <==> k in old(byKey) && (k.backend != backend || k.vmID in seen)
      ensures forall k | k in byKey :: byKey[k] == old(byKey)[k]
    {
      ghost var before := Registered();
      ghost var gone: set<Key> := {};
      var todo := byKey.Keys;
      assert Kept(before, gone) == before;
      while todo != {}
        invariant Valid() && Registered() == Kept(before, gone)
        invariant todo <= before.byKey.Keys && todo !! gone
        invariant gone <= before.byKey.Keys
        invariant forall k | k in before.byKey.Keys - todo :: k in gone <==> Absent(k, backend, seen)
        decreases todo
      {
        var key :| key in todo;
        todo := todo - {key};
        KeptOneMore(before, gone, key);
        if key.backend == backend && key.vmID !in seen {
          EvictLocked(key, byKey[key].fd);
          gone := gone + {key};
        }
      }
      assert gone == AbsentKeys(before, backend, seen);
    }

    /** A descriptor reported readable; sent is false when the daemon is shutting down. */
    method Fire(fd: int, sent: bool)
      requires Valid()
      modifies this
      ensures Valid() && Registered() == Fired(old(Registered()), fd).0
      ensures fd in old(byFD) ==>
                var key := old(byFD)[fd];
                && byKey == old(byKey) - {key} && fd !in byFD
                && exits == old(exits) + (if sent then [Event(key, old(byKey)[key].gen)] else [])
      ensures fd !in old(byFD) ==> byKey == old(byKey) && byFD == old(byFD) && exits == old(exits)
      ensures exits == old(exits) + (match Fired(old(Registered()), fd).1
                                     case Some(e) => if sent then [e] else []
                                     case None => [])
    {
      if fd !in byFD {
        return;
      }
      var key := byFD[fd];
      var gen := byKey[key].gen;
      EvictLocked(key, fd);
      if sent {
        exits := exits + [Event(key, gen)];
      }
    }
  }

  // ----- every run of critical sections

  datatype Op =
    | EnsureFirst(key: Key, proc: Proc, gen: nat)
    | EnsureSecond(key: Key, proc: Proc, gen: nat, fd: int)
    | DropKey(key: Key)
    | DropUnseen(backend: string, seen: set<string>)
    | FireFD(fd: int)

  /**
    ensure runs on one goroutine, so its second section still finds the key unwatched, and the kernel's number is new.
  */
  predicate Enabled(r: Registry, op: Op) {
    op.EnsureSecond? ==> op.key !in r.byKey && op.fd !in r.byFD
  }

  function Apply(r: Registry, op: Op): Registry
    requires Inverse(r)
  {
    match op
    case EnsureFirst(k, p, g) => Outdated(r, k, p, g)
    case EnsureSecond(k, p, g, fd) => Added(r, k, p, g, fd)
    case DropKey(k) => Dropped(r, k)
    case DropUnseen(b, seen) => Kept(r, AbsentKeys(r, b, seen))
    case FireFD(fd) => Fired(r, fd).0
  }

  lemma StepKeepsInverse(r: Registry, op: Op)
    requires Inverse(r) && Enabled(r, op)
    ensures Inverse(Apply(r, op))
    ensures forall k | k in Apply(r, op).byKey ::
              if op.EnsureSecond? && op.key == k then Apply(r, op).byKey[k] == Entry(op.proc, op.gen, op.fd)
              else k in r.byKey && Apply(r, op).byKey[k] == r.byKey[k]
  {
  }

  /** r is what a run of critical sections leaves of the empty registry. */
  ghost predicate Reaches(run: seq<Op>, r: Registry) {
    if run == [] then r == EMPTY
    else
      exists q ::
        && Reaches(run[..|run| - 1], q) && Inverse(q)
        && Enabled(q, run[|run| - 1]) && r == Apply(q, run[|run| - 1])
  }

  /** The process and generation the key was last watched under, with the descriptor it got. */
  function LastWatch(run: seq<Op>, key: Key): Option<Entry> {
    if run == [] then None
    else match run[|run| - 1]
         case EnsureSecond(k, p, g, fd) => if k == key then Some(Entry(p, g, fd)) else LastWatch(run[..|run| - 1], key)
         case _ => LastWatch(run[..|run| - 1], key)
  }

  lemma {:induction false} RunKeepsRegistry(run: seq<Op>, r: Registry)
    requires Reaches(run, r)
    ensures Inverse(r) && forall k | k in r.byKey :: LastWatch(run, k) == Some(r.byKey[k])
  {
    if run != [] {
      var init, op := run[..|run| - 1], run[|run| - 1];
      var q :| Reaches(init, q) && Inverse(q) && Enabled(q, op) && r == Apply(q, op);
      RunKeepsRegistry(init, q);
      StepKeepsInverse(q, op);
    }
  }

  /**
    Over every run, whichever descriptor fires and however its number was recycled, the event names a VM
    together with the generation that VM was last watched under, and fires at most once per watch: the same
    descriptor then raises nothing until it is handed out again.
  */
  lemma FiredGenerationIsTheWatchedOne(run: seq<Op>, r: Registry, fd: int)
    requires Reaches(run, r)
    ensures Inverse(r)
    ensures var (r', e) := Fired(r, fd);
            && (e.Some? <==> fd in r.byFD)
            && (e.Some? ==> exists p :: LastWatch(run, e.value.key) == Some(Entry(p, e.value.gen, fd)))
            && fd !in r'.byFD
            && Inverse(r') && Fired(r', fd).1 == None
  {
    RunKeepsRegistry(run, r);
    StepKeepsInverse(r, FireFD(fd));
    if fd in r.byFD {
      var e := r.byKey[r.byFD[fd]];
      assert LastWatch(run, r.byFD[fd]) == Some(Entry(e.proc, e.gen, fd));
    }
  }
}
