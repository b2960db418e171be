/**
  The placement index of hypervisor/repo.go and the launch tally of hypervisor/placement.go.
  Every record write mirrors the record's cpu list into a placements table; a launch counts that
  table instead of reading every record.
*/
module Placements {
  import opened Common
  import opened CpuList
  import opened Topology
  import Lifecycle

  type Rec = Lifecycle.Rec

  const AUTO := "auto"

  datatype Config = Config(cpu: int, cpuSetCPUs: string)

  // ----- the two tables

  datatype Tables = Tables(records: map<string, Rec>, placements: map<string, string>)

  /** cmp.Or(rec.QueueCPUs, rec.CPUSet). */
  function Row(r: Rec): string { if r.queueCPUs != "" then r.queueCPUs else r.cpuSet }

  /** The rows the records call for: none for a record that occupies no cpu list. */
  function Projection(records: map<string, Rec>): map<string, string> {
    map id | id in records && Row(records[id]) != "" :: Row(records[id])
  }

  predicate Mirrored(t: Tables) { t.placements == Projection(t.records) }

  datatype Write = PutRecord(id: string, rec: Rec) | DelRecord(id: string)

  function Apply(t: Tables, w: Write): Tables {
    match w
    case PutRecord(id, rec) =>
      Tables(t.records[id := rec], if Row(rec) != "" then t.placements[id := Row(rec)] else t.placements - {id})
    case DelRecord(id) => Tables(t.records - {id}, t.placements - {id})
  }

  function After(t: Tables, writes: seq<Write>): Tables {
    if writes == [] then t else Apply(After(t, writes[..|writes| - 1]), writes[|writes| - 1])
  }

  lemma WriteKeepsMirror(t: Tables, w: Write)
    requires Mirrored(t)
    ensures Mirrored(Apply(t, w))
  {
    var a := Apply(t, w);
    assert a.placements.Keys == Projection(a.records).Keys;
  }

  /** A VM has a row exactly when one of its two lists is set; its queue cpus win over its cpu set. */
  predicate RowTells(t: Tables, id: string) {
    && (id in t.placements <==> id in t.records && (t.records[id].queueCPUs != "" || t.records[id].cpuSet != ""))
    && (id in t.records && t.records[id].queueCPUs != "" ==> t.placements[id] == t.records[id].queueCPUs)
    && (id in t.records && t.records[id].queueCPUs == "" && t.records[id].cpuSet != "" ==>
          t.placements[id] == t.records[id].cpuSet)
  }

  lemma MirroredTells(t: Tables, id: string)
    requires Mirrored(t)
    ensures RowTells(t, id)
  {
  }

  /** After every sequence of record writes and deletes the placements table is the projection of the records. */
  lemma {:induction false} EveryRunMirrors(writes: seq<Write>)
    ensures Mirrored(After(Tables(map[], map[]), writes))
    ensures forall id :: RowTells(After(Tables(map[], map[]), writes), id)
  {
    if writes != [] {
      EveryRunMirrors(writes[..|writes| - 1]);
      WriteKeepsMirror(After(Tables(map[], map[]), writes[..|writes| - 1]), writes[|writes| - 1]);
    }
  }

  class VmTables {
    var records: map<string, Rec>
    var placements: map<string, string>

    function Value(): Tables
      reads this
    {
      Tables(records, placements)
    }

    constructor ()
      ensures Mirrored(Value()) && Value() == Tables(map[], map[])
    {
      records, placements := map[], map[];
    }

    method Put(id: string, rec: Rec)
      modifies this
      ensures Value() == Apply(old(Value()), PutRecord(id, rec))
      ensures old(Mirrored(Value())) ==> Mirrored(Value())
      ensures records == old(records)[id := rec]
      ensures id in placements <==> rec.queueCPUs != "" || rec.cpuSet != ""
      ensures rec.queueCPUs != "" ==> placements[id] == rec.queueCPUs
      ensures rec.queueCPUs == "" && rec.cpuSet != "" ==> placements[id] == rec.cpuSet
      ensures forall other | other != id ::
                && (other in placements <==> other in old(placements))
                && (other in placements ==> placements[other] == old(placements)[other])
    {
      WriteKeepsMirrorIf(Value(), PutRecord(id, rec));
      records := records[id := rec];
      var cpus := if rec.queueCPUs != "" then rec.queueCPUs else rec.cpuSet;
      if cpus != "" {
        placements := placements[id := cpus];
      } else {
        placements := placements - {id};
      }
    }

    method Del(id: string)
      modifies this
      ensures Value() == Apply(old(Value()), DelRecord(id))
      ensures old(Mirrored(Value())) ==> Mirrored(Value())
      ensures records == old(records) - {id} && placements == old(placements) - {id}
    {
      WriteKeepsMirrorIf(Value(), DelRecord(id));
      records := records - {id};
      placements := placements - {id};
    }

    /**
      placeRecord: choose and store id's placement, and mark its plumbing as owed a quiesce. The choice counts
      every other record of this and the peer namespaces, whose tables are read in the same transaction.
    */
    method PlaceRecord(host: Host, backendPins: bool, id: string, cfg: Config, topo: Option<Topo>,
                       peers: seq<map<string, string>>)
      returns (r: Option<(string, string)>, ghost load: map<int, int>, ghost pick: nat)
      requires Mirrored(Value()) && (topo.Some? ==> Describes(Decode(host), topo.value))
      modifies this
      ensures Mirrored(Value())
      ensures id in old(records) && topo.Some? ==> LeastLoaded(topo.value.domains, load, pick)
      ensures r.None? <==> id !in old(records) || (topo.Some? && PinsQueues(backendPins, cfg) &&
                                                   Unreadable(Decode(host), topo.value.domains[pick]))
      ensures r.None? ==> Value() == old(Value())
      ensures r.Some? ==>
                Value() == Apply(old(Value()),
                                 PutRecord(id, Lifecycle.Place(old(records)[id], r.value.0, r.value.1).rec))
      ensures r.Some? && topo.Some? ==>
                && Counts(load, [Projection(old(records))] + peers, id)
                && Placed(Decode(host), topo.value, PinsQueues(backendPins, cfg), cfg, load, pick, r.value.0, r.value.1)
      ensures r.Some? && topo.None? ==> r.value.0 == cfg.cpuSetCPUs
      ensures r.Some? ==>
                && id in records && records[id].cpuSet == r.value.0 && records[id].queueCPUs == r.value.1
                && records[id].state == old(records)[id].state && records[id].gen == old(records)[id].gen
                && (records[id].pending <==>
                    old(records)[id].pending || (records[id].state != Lifecycle.Creating && records[id].nics))
    {
      load, pick := map[], 0;
      if id !in records {
        return None, load, pick;
      }
      var rec := records[id];
      r, load, pick := PlaceVM(host, backendPins, cfg, topo, [placements] + peers, id);
      if r.None? {
        return;
      }
      rec := rec.(cpuSet := r.value.0, queueCPUs := r.value.1);
      if rec.state != Lifecycle.Creating && rec.nics {
        rec := rec.(pending := true);
      }
      Put(id, rec);
    }
  }

  lemma WriteKeepsMirrorIf(t: Tables, w: Write)
    ensures Mirrored(t) ==> Mirrored(Apply(t, w))
  {
    if Mirrored(t) {
      WriteKeepsMirror(t, w);
    }
  }

  // ----- the tally

  /** The cpus a list occupies; a malformed list occupies none. */
  function CpusOf(list: string): set<int> { if Denotes(list).Some? then Denotes(list).value else {} }

  /** The rows other than self's that occupy cpu c. */
  function Occupants(rows: map<string, string>, self: string, c: int): set<string> {
    set id | id in rows && id != self && c in CpusOf(rows[id])
  }

  function Tally(tables: seq<map<string, string>>, self: string, c: int): nat {
    if tables == [] then 0 else Tally(tables[..|tables| - 1], self, c) + |Occupants(tables[|tables| - 1], self, c)|
  }

  ghost predicate Counts(load: map<int, int>, tables: seq<map<string, string>>, self: string) {
    forall c :: LoadOf(load, c) == Tally(tables, self, c)
  }

  method PlacementLoad(tables: seq<map<string, string>>, self: string) returns (load: map<int, int>)
    ensures Counts(load, tables, self)
  {
    load := map[];
    for n := 0 to |tables|
      invariant Counts(load, tables[..n], self)
    {
      load := ScanTable(load, tables[n], self);
      assert tables[..n + 1][..n] == tables[..n];
    }
    assert tables[..|tables|] == tables;
  }

  /** One table's scan, in any order. */
  method ScanTable(before: map<int, int>, rows: map<string, string>, self: string) returns (load: map<int, int>)
    ensures forall c :: LoadOf(load, c) == LoadOf(before, c) + |Occupants(rows, self, c)|
  {
    load := before;
    var todo := rows.Keys;
    assert Restrict(rows, todo) == map[];
    while todo != {}
      invariant todo <= rows.Keys
      invariant forall c :: LoadOf(load, c) == LoadOf(before, c) + |Occupants(Restrict(rows, todo), self, c)|
      decreases todo
    {
      var id :| id in todo;
      ghost var was := load;
      if id != self {
        var cpus := ParseCPUList(rows[id]);
        if cpus.Some? {
          load := CountAll(load, cpus.value);
        }
      }
      forall c ensures LoadOf(load, c) == LoadOf(before, c) + |Occupants(Restrict(rows, todo - {id}), self, c)| {
        OccupantsNext(rows, todo, id, self, c);
      }
      todo := todo - {id};
    }
    assert Restrict(rows, {}) == rows;
  }

  /** The rows already scanned. */
  ghost function Restrict(rows: map<string, string>, todo: set<string>): map<string, string> { rows - todo }

  lemma OccupantsNext(rows: map<string, string>, todo: set<string>, id: string, self: string, c: int)
    requires id in todo && todo <= rows.Keys
    ensures |Occupants(Restrict(rows, todo - {id}), self, c)| ==
            |Occupants(Restrict(rows, todo), self, c)| + (if id != self && c in CpusOf(rows[id]) then 1 else 0)
  {
    var a, b := Occupants(Restrict(rows, todo), self, c), Occupants(Restrict(rows, todo - {id}), self, c);
    assert id !in a;
    assert b == if id != self && c in CpusOf(rows[id]) then a + {id} else a;
  }

  method CountAll(before: map<int, int>, cpus: seq<int>) returns (load: map<int, int>)
    requires Increasing(cpus)
    ensures forall c :: LoadOf(load, c) == LoadOf(before, c) + (if c in Elems(cpus) then 1 else 0)
  {
    load := before;
    for i := 0 to |cpus|
      invariant forall c :: LoadOf(load, c) == LoadOf(before, c) + (if c in Elems(cpus[..i]) then 1 else 0)
    {
      assert cpus[..i + 1] == cpus[..i] + [cpus[i]];
      ElemsSnoc(cpus[..i], cpus[i]);
      load := load[cpus[i] := LoadOf(load, cpus[i]) + 1];
    }
    assert cpus[..|cpus|] == cpus;
  }

  /** A VM that pins its queues occupies their cpus, any other those of its cpu set. */
  predicate Occupies(r: Rec, c: int) { c in CpusOf(if r.queueCPUs == "" then r.cpuSet else r.queueCPUs) }

  /** The records but self's that occupy cpu c, over all namespaces. */
  function RecordTally(namespaces: seq<map<string, Rec>>, self: string, c: int): nat {
    if namespaces == [] then 0
    else
      var records := namespaces[|namespaces| - 1];
      RecordTally(namespaces[..|namespaces| - 1], self, c) +
      |set id | id in records && id != self && Occupies(records[id], c)|
  }

  function Mirrors(namespaces: seq<map<string, Rec>>): seq<map<string, string>> {
    if namespaces == [] then []
    else Mirrors(namespaces[..|namespaces| - 1]) + [Projection(namespaces[|namespaces| - 1])]
  }

  /**
    Counting the mirrors is counting the records: cpu c is charged once for every record but self's that occupies it.
  */
  lemma {:induction false} TallyCountsRecords(namespaces: seq<map<string, Rec>>, self: string, c: int)
    ensures Tally(Mirrors(namespaces), self, c) == RecordTally(namespaces, self, c)
  {
    if namespaces != [] {
      var init, records := namespaces[..|namespaces| - 1], namespaces[|namespaces| - 1];
      TallyCountsRecords(init, self, c);
      assert Mirrors(namespaces)[..|Mirrors(namespaces)| - 1] == Mirrors(init);
      assert CpusOf("") == {};
      assert Occupants(Projection(records), self, c) ==
             set id | id in records && id != self && Occupies(records[id], c);
    }
  }

  // ----- placeVM

  predicate PinsQueues(backendPins: bool, cfg: Config) { backendPins && cfg.cpu > 1 }

  /** The domain's sibling files cannot all be read, on which coresOf fails. */
  predicate Unreadable(h: Sysfs, domain: seq<int>) { CoresFrom(h, domain, 0, {}).None? }

  /**
    What an automatic placement is: the least-loaded domain, and for the queues threads of it, the best ones when the
    sibling files describe cores.
  */
  ghost predicate Placed(h: Sysfs, t: Topo, pins: bool, cfg: Config, load: map<int, int>, pick: nat, cpuSet: string,
                         queueCPUs: string)
  {
    && LeastLoaded(t.domains, load, pick)
    && (cfg.cpuSetCPUs == AUTO ==> Denotes(cpuSet) == Some(Elems(t.domains[pick])))
    && (cfg.cpuSetCPUs != AUTO ==> cpuSet == "")
    && (pins ==>
          exists q ::
            && Denotes(queueCPUs) == Some(Elems(q)) && Elems(q) <= Elems(t.domains[pick]) && |q| <= cfg.cpu
            && (SiblingsOk(h, Elems(t.domains[pick])) ==> GoodPins(h, Elems(t.domains[pick]), load, cfg.cpu, q)))
    && (!pins ==> queueCPUs == "")
  }

  lemma PinsAreNumbers(domain: seq<int>, pins: seq<int>)
    requires Numbers(domain) && Elems(pins) <= Elems(domain)
    ensures Numbers(pins)
  {
    assert forall i | 0 <= i < |pins| :: pins[i] in Elems(pins);
  }

  method PlaceVM(host: Host, backendPins: bool, cfg: Config, topo: Option<Topo>, tables: seq<map<string, string>>,
                 self: string)
    returns (r: Option<(string, string)>, ghost load: map<int, int>, ghost pick: nat)
    requires topo.Some? ==> Describes(Decode(host), topo.value)
    ensures topo.None? ==> r == Some((cfg.cpuSetCPUs, if PinsQueues(backendPins, cfg) then cfg.cpuSetCPUs else ""))
    ensures topo.Some? ==> Counts(load, tables, self) && LeastLoaded(topo.value.domains, load, pick)
    ensures topo.Some? ==>
              (r.None? <==> PinsQueues(backendPins, cfg) && Unreadable(Decode(host), topo.value.domains[pick]))
    ensures topo.Some? && r.Some? ==>
              Placed(Decode(host), topo.value, PinsQueues(backendPins, cfg), cfg, load, pick, r.value.0, r.value.1)
  {
    load, pick := map[], 0;
    var cpuSet, queueCPUs := "", "";
    var pins := backendPins && cfg.cpu > 1;
    if topo.None? {
      if cfg.cpuSetCPUs != "" {
        cpuSet := cfg.cpuSetCPUs;
        if pins {
          queueCPUs := cfg.cpuSetCPUs;
        }
      }
      return Some((cpuSet, queueCPUs)), load, pick;
    }
    var counted := PlacementLoad(tables, self);
    load := counted;
    var queues := if pins then cfg.cpu else 1;
    var choice;
    choice, pick := Place(host, topo.value, queues, counted);
    if choice.None? {
      return None, load, pick;
    }
    ghost var h := Decode(host);
    var (domain, threads) := choice.value;
    if pins {
      PinsAreNumbers(domain, threads);
      FormatDenotes(threads);
      queueCPUs := FormatCPUList(threads);
    }
    if cfg.cpuSetCPUs == AUTO {
      FormatDenotes(domain);
      cpuSet := FormatCPUList(domain);
    }
    return Some((cpuSet, queueCPUs)), load, pick;
  }
}
