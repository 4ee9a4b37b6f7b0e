/**
 The session rows of a semantic stream: a context header with three tables (effective cfgs
 and two target-feature inventories) and a harness entry with its descriptor table. The
 fold that checks them row by row accepts exactly the well-formed row sequences.
 */
module ObservedRows {
  import opened Bytes
  import opened TextOrder

  datatype CompilerDefinition = CompilerDefinition(
    krate: string, stableCrateId: string, crateHash: string, defPathHash: string, content: string)
  {
    predicate SameCrate(other: CompilerDefinition) {
      krate == other.krate && stableCrateId == other.stableCrateId && crateHash == other.crateHash
    }
  }

  datatype ContextObs = ContextObs(cfgEntries: nat, stableEntries: nat, allEntries: nat, content: string)

  datatype CfgObs = CfgObs(ordinal: nat, name: string, value: Option<string>)

  datatype FeatureObs = FeatureObs(stable: bool, ordinal: nat, name: string)

  datatype EntryObs = EntryObs(entry: CompilerDefinition, descriptorType: CompilerDefinition, tableEntries: nat,
                               content: string)

  datatype DescriptorObs = DescriptorObs(
    ordinal: nat, constant: CompilerDefinition, descriptorType: CompilerDefinition, name: string, content: string)

  datatype Target =
    | DefinitionTarget(krate: string, path: string)
    | LocalBinding(owner: nat, index: nat)
    | Builtin(name: string)
    | Context(context: ContextObs)
    | Cfg(cfg: CfgObs)
    | Feature(feature: FeatureObs)
    | Entry(entry: EntryObs)
    | Descriptor(descriptor: DescriptorObs)

  // ----- the row-by-row check -----

  datatype ObsState = ObsState(
    context: Option<ContextObs>, harness: Option<EntryObs>, cfg: nat, stable: nat, all: nat, descriptors: nat,
    lastName: Option<string>, cfgKeys: set<(string, Option<string>)>, stableKeys: set<string>, allKeys: set<string>,
    constants: set<string>)

  const NOTHING := ObsState(None, None, 0, 0, 0, 0, None, {}, {}, {}, {})

  /** One row against the state so far; None is a rejection. */
  function PushRow(s: ObsState, t: Target): Option<ObsState> {
    match t
    case Context(context) => if s.context.Some? then None else Some(s.(context := Some(context)))
    case Cfg(cfg) =>
      if s.context.None? || cfg.ordinal != s.cfg || s.cfg >= s.context.value.cfgEntries
         || (cfg.name, cfg.value) in s.cfgKeys then
        None
      else Some(s.(cfg := s.cfg + 1, cfgKeys := s.cfgKeys + {(cfg.name, cfg.value)}))
    case Feature(feature) =>
      if s.context.None? then None
      else if feature.stable then
        if feature.ordinal != s.stable || s.stable >= s.context.value.stableEntries || feature.name in s.stableKeys then
          None
        else Some(s.(stable := s.stable + 1, stableKeys := s.stableKeys + {feature.name}))
      else
        if feature.ordinal != s.all || s.all >= s.context.value.allEntries || feature.name in s.allKeys then None
        else Some(s.(all := s.all + 1, allKeys := s.allKeys + {feature.name}))
    case Entry(entry) => if s.harness.Some? then None else Some(s.(harness := Some(entry)))
    case Descriptor(d) =>
      if s.harness.None? || d.ordinal != s.descriptors || s.descriptors >= s.harness.value.tableEntries
         || (s.lastName.Some? && !Before(s.lastName.value, d.name))
         || d.descriptorType != s.harness.value.descriptorType || !d.constant.SameCrate(s.harness.value.entry)
         || d.constant.defPathHash in s.constants
      then None
      else Some(s.(descriptors := s.descriptors + 1, lastName := Some(d.name),
                   constants := s.constants + {d.constant.defPathHash}))
    case _ => Some(s)
  }

  function Observe(ts: seq<Target>): Option<ObsState> {
    if ts == [] then Some(NOTHING)
    else
      match Observe(ts[..|ts| - 1])
      case None => None
      case Some(s) => PushRow(s, ts[|ts| - 1])
  }

  // ----- the tables a row sequence spells out -----

  function ContextRows(ts: seq<Target>): seq<ContextObs> {
    if ts == [] then [] else ContextRows(ts[..|ts| - 1]) + if ts[|ts| - 1].Context? then [ts[|ts| - 1].context] else []
  }

  function EntryRows(ts: seq<Target>): seq<EntryObs> {
    if ts == [] then [] else EntryRows(ts[..|ts| - 1]) + if ts[|ts| - 1].Entry? then [ts[|ts| - 1].entry] else []
  }

  function CfgRows(ts: seq<Target>): seq<(nat, (string, Option<string>))> {
    if ts == [] then [] else
      CfgRows(ts[..|ts| - 1])
      + if ts[|ts| - 1].Cfg? then [(ts[|ts| - 1].cfg.ordinal, (ts[|ts| - 1].cfg.name, ts[|ts| - 1].cfg.value))] else []
  }

  function FeatureRows(ts: seq<Target>, stable: bool): seq<(nat, string)> {
    if ts == [] then [] else
      FeatureRows(ts[..|ts| - 1], stable)
      + if ts[|ts| - 1].Feature? && ts[|ts| - 1].feature.stable == stable
        then [(ts[|ts| - 1].feature.ordinal, ts[|ts| - 1].feature.name)] else []
  }

  function DescriptorRows(ts: seq<Target>): seq<DescriptorObs> {
    if ts == [] then [] else DescriptorRows(ts[..|ts| - 1]) + if ts[|ts| - 1].Descriptor? then [ts[|ts| - 1].descriptor]
    else []
  }

  /** Numbered from zero without a gap, no key twice. */
  predicate Table<K(==)>(rows: seq<(nat, K)>) {
    (forall k :: 0 <= k < |rows| ==> rows[k].0 == k) && (forall i, j :: 0 <= i < j < |rows| ==> rows[i].1 != rows[j].1)
  }

  predicate Increasing(ds: seq<DescriptorObs>) {
    forall i, j :: 0 <= i < j < |ds| ==> Before(ds[i].name, ds[j].name)
  }

  /** Numbered from zero without a gap, names strictly increasing, no constant twice. */
  predicate DescriptorTable(ds: seq<DescriptorObs>) {
    Table(ConstantRows(ds)) && Increasing(ds)
  }

  function ConstantRows(ds: seq<DescriptorObs>): seq<(nat, string)> {
    seq(|ds|, i requires 0 <= i < |ds| => (ds[i].ordinal, ds[i].constant.defPathHash))
  }

  predicate MatchesHarness(ds: seq<DescriptorObs>, harness: EntryObs) {
    |ds| <= harness.tableEntries
    && forall k :: 0 <= k < |ds| ==>
      ds[k].descriptorType == harness.descriptorType && ds[k].constant.SameCrate(harness.entry)
  }

  predicate FitsContext(ts: seq<Target>, context: ContextObs) {
    && |CfgRows(ts)| <= context.cfgEntries
    && |FeatureRows(ts, true)| <= context.stableEntries
    && |FeatureRows(ts, false)| <= context.allEntries
  }

  /** A table row comes after its header. */
  predicate HeadersFirst(ts: seq<Target>) {
    forall i :: 0 <= i < |ts| ==>
      && (ts[i].Cfg? || ts[i].Feature? ==> ContextRows(ts[..i]) != [])
      && (ts[i].Descriptor? ==> EntryRows(ts[..i]) != [])
  }

  predicate WellFormed(ts: seq<Target>) {
    && |ContextRows(ts)| <= 1 && |EntryRows(ts)| <= 1
    && HeadersFirst(ts)
    && Table(CfgRows(ts)) && Table(FeatureRows(ts, true)) && Table(FeatureRows(ts, false))
    && DescriptorTable(DescriptorRows(ts))
    && (ContextRows(ts) != [] ==> FitsContext(ts, ContextRows(ts)[0]))
    && (EntryRows(ts) != [] ==> MatchesHarness(DescriptorRows(ts), EntryRows(ts)[0]))
  }

  function Keys<K>(rows: seq<(nat, K)>): set<K> {
    if rows == [] then {} else Keys(rows[..|rows| - 1]) + {rows[|rows| - 1].1}
  }

  function First<T>(s: seq<T>): Option<T> {
    if s == [] then None else Some(s[0])
  }

  /** What the check should remember after these rows. */
  function StateOf(ts: seq<Target>): ObsState {
    var ds := DescriptorRows(ts);
    ObsState(First(ContextRows(ts)), First(EntryRows(ts)), |CfgRows(ts)|, |FeatureRows(ts, true)|,
             |FeatureRows(ts, false)|, |ds|,
             if ds == [] then None else Some(ds[|ds| - 1].name),
             Keys(CfgRows(ts)), Keys(FeatureRows(ts, true)), Keys(FeatureRows(ts, false)), Keys(ConstantRows(ds)))
  }

  // ----- tables grow one row at a time -----

  lemma {:induction false} KeysMember<K>(rows: seq<(nat, K)>, key: K)
    ensures key in Keys(rows) <==> exists i :: 0 <= i < |rows| && rows[i].1 == key
    decreases |rows|
  {
    if rows != [] { KeysMember(rows[..|rows| - 1], key); }
  }

  lemma TableGrows<K>(rows: seq<(nat, K)>, row: (nat, K))
    ensures Table(rows + [row]) <==> Table(rows) && row.0 == |rows| && row.1 !in Keys(rows)
    ensures Keys(rows + [row]) == Keys(rows) + {row.1}
  {
    var grown := rows + [row];
    assert grown[..|rows|] == rows && grown[|rows|] == row;
    assert Keys(grown) == Keys(rows) + {row.1};
    hide Keys;
    KeysMember(rows, row.1);
    if Table(grown) {
      forall k | 0 <= k < |rows| ensures rows[k].0 == k && rows[k].1 != row.1 { assert grown[k] == rows[k]; }
      forall i, j | 0 <= i < j < |rows| ensures rows[i].1 != rows[j].1 {
        assert grown[i] == rows[i] && grown[j] == rows[j];
      }
    }
  }

  lemma IncreasingGrows(ds: seq<DescriptorObs>, d: DescriptorObs)
    ensures Increasing(ds + [d]) <==> Increasing(ds) && (ds != [] ==> Before(ds[|ds| - 1].name, d.name))
  {
    hide Before;
    var grown := ds + [d];
    assert grown[|ds|] == d && forall i :: 0 <= i < |ds| ==> grown[i] == ds[i];
    if Increasing(grown) {
      forall i, j | 0 <= i < j < |ds| ensures Before(ds[i].name, ds[j].name) {
        assert Before(grown[i].name, grown[j].name);
      }
      if ds != [] { assert Before(grown[|ds| - 1].name, grown[|ds|].name); }
    }
    if Increasing(ds) && ds != [] && Before(ds[|ds| - 1].name, d.name) {
      forall i | 0 <= i < |ds| ensures Before(ds[i].name, d.name) {
        if i < |ds| - 1 { BeforeTransitive(ds[i].name, ds[|ds| - 1].name, d.name); }
      }
    }
  }

  lemma DescriptorTableGrows(ds: seq<DescriptorObs>, d: DescriptorObs)
    ensures DescriptorTable(ds + [d]) <==>
            DescriptorTable(ds) && d.ordinal == |ds| && (ds != [] ==> Before(ds[|ds| - 1].name, d.name))
            && d.constant.defPathHash !in Keys(ConstantRows(ds))
    ensures Keys(ConstantRows(ds + [d])) == Keys(ConstantRows(ds)) + {d.constant.defPathHash}
  {
    hide Before, Increasing, Table, Keys;
    IncreasingGrows(ds, d);
    assert ConstantRows(ds + [d]) == ConstantRows(ds) + [(d.ordinal, d.constant.defPathHash)];
    TableGrows(ConstantRows(ds), (d.ordinal, d.constant.defPathHash));
  }

  lemma MatchesHarnessGrows(ds: seq<DescriptorObs>, d: DescriptorObs, harness: EntryObs)
    ensures MatchesHarness(ds + [d], harness) <==>
            MatchesHarness(ds, harness) && |ds| < harness.tableEntries
            && d.descriptorType == harness.descriptorType && d.constant.SameCrate(harness.entry)
  {
    var grown := ds + [d];
    assert grown[|ds|] == d;
    if MatchesHarness(grown, harness) {
      forall k | 0 <= k < |ds| ensures ds[k].descriptorType == harness.descriptorType
        && ds[k].constant.SameCrate(harness.entry) {
        assert grown[k] == ds[k];
      }
    }
  }

  lemma HeadersFirstGrows(ts: seq<Target>, t: Target)
    ensures HeadersFirst(ts + [t]) <==>
            HeadersFirst(ts) && (t.Cfg? || t.Feature? ==> ContextRows(ts) != [])
              && (t.Descriptor? ==> EntryRows(ts) != [])
  {
    hide ContextRows, EntryRows;
    var grown := ts + [t];
    assert grown[..|ts|] == ts && grown[|ts|] == t;
    assert forall i :: 0 <= i < |ts| ==> grown[i] == ts[i] && grown[..i] == ts[..i];
    if HeadersFirst(grown) {
      forall i | 0 <= i < |ts|
        ensures (ts[i].Cfg? || ts[i].Feature? ==> ContextRows(ts[..i]) != [])
        ensures (ts[i].Descriptor? ==> EntryRows(ts[..i]) != [])
      {
        assert grown[i] == ts[i] && grown[..i] == ts[..i];
      }
    }
  }

  lemma ViewsGrow(ts: seq<Target>, t: Target)
    ensures ContextRows(ts + [t]) == if t.Context? then ContextRows(ts) + [t.context] else ContextRows(ts)
    ensures EntryRows(ts + [t]) == if t.Entry? then EntryRows(ts) + [t.entry] else EntryRows(ts)
    ensures CfgRows(ts + [t]) == if t.Cfg? then CfgRows(ts) + [(t.cfg.ordinal, (t.cfg.name, t.cfg.value))]
            else CfgRows(ts)
    ensures forall stable :: FeatureRows(ts + [t], stable) ==
              if t.Feature? && t.feature.stable == stable
              then FeatureRows(ts, stable) + [(t.feature.ordinal, t.feature.name)]
              else FeatureRows(ts, stable)
    ensures DescriptorRows(ts + [t]) == if t.Descriptor? then DescriptorRows(ts) + [t.descriptor]
            else DescriptorRows(ts)
  {
    assert (ts + [t])[..|ts|] == ts;
  }

  // ----- the check accepts exactly the well-formed sequences -----

  lemma CfgCheck(ts: seq<Target>, t: Target)
    requires t.Cfg? && WellFormed(ts)
    ensures PushRow(StateOf(ts), t) == if WellFormed(ts + [t]) then Some(StateOf(ts + [t])) else None
  {
    hide ContextRows, EntryRows, CfgRows, FeatureRows, DescriptorRows, Table, DescriptorTable, MatchesHarness,
      HeadersFirst, Keys, ConstantRows;
    ViewsGrow(ts, t);
    HeadersFirstGrows(ts, t);
    TableGrows(CfgRows(ts), (t.cfg.ordinal, (t.cfg.name, t.cfg.value)));
  }

  lemma FeatureCheck(ts: seq<Target>, t: Target)
    requires t.Feature? && WellFormed(ts)
    ensures PushRow(StateOf(ts), t) == if WellFormed(ts + [t]) then Some(StateOf(ts + [t])) else None
  {
    hide ContextRows, EntryRows, CfgRows, FeatureRows, DescriptorRows, Table, DescriptorTable, MatchesHarness,
      HeadersFirst, Keys, ConstantRows;
    ViewsGrow(ts, t);
    HeadersFirstGrows(ts, t);
    TableGrows(FeatureRows(ts, t.feature.stable), (t.feature.ordinal, t.feature.name));
  }

  lemma DescriptorCheck(ts: seq<Target>, t: Target)
    requires t.Descriptor? && WellFormed(ts)
    ensures PushRow(StateOf(ts), t) == if WellFormed(ts + [t]) then Some(StateOf(ts + [t])) else None
  {
    hide ContextRows, EntryRows, CfgRows, FeatureRows, DescriptorRows, Table, DescriptorTable, MatchesHarness,
      HeadersFirst, Before;
    ViewsGrow(ts, t);
    HeadersFirstGrows(ts, t);
    DescriptorTableGrows(DescriptorRows(ts), t.descriptor);
    if EntryRows(ts) != [] { MatchesHarnessGrows(DescriptorRows(ts), t.descriptor, EntryRows(ts)[0]); }
  }

  /** A header finds no table rows before it, so its limits hold at once. */
  lemma ContextCheck(ts: seq<Target>, t: Target)
    requires t.Context? && WellFormed(ts)
    ensures PushRow(StateOf(ts), t) == if WellFormed(ts + [t]) then Some(StateOf(ts + [t])) else None
  {
    hide ContextRows, EntryRows, CfgRows, FeatureRows, DescriptorRows, Table, MatchesHarness, DescriptorTable,
      HeadersFirst, Keys, ConstantRows;
    NoRowsWithoutHeader(ts);
    ViewsGrow(ts, t);
    HeadersFirstGrows(ts, t);
  }

  lemma EntryCheck(ts: seq<Target>, t: Target)
    requires t.Entry? && WellFormed(ts)
    ensures PushRow(StateOf(ts), t) == if WellFormed(ts + [t]) then Some(StateOf(ts + [t])) else None
  {
    hide ContextRows, EntryRows, CfgRows, FeatureRows, DescriptorRows, Table, FitsContext, DescriptorTable,
      HeadersFirst, Keys, ConstantRows;
    NoRowsWithoutHeader(ts);
    ViewsGrow(ts, t);
    HeadersFirstGrows(ts, t);
    ContextStays(ts, t);
  }

  lemma ContextStays(ts: seq<Target>, t: Target)
    requires t.Entry?
    ensures forall c :: FitsContext(ts + [t], c) <==> FitsContext(ts, c)
  {
    hide ContextRows, EntryRows, CfgRows, FeatureRows, DescriptorRows;
    ViewsGrow(ts, t);
  }

  lemma {:induction false} NoRowsWithoutHeader(ts: seq<Target>)
    requires HeadersFirst(ts)
    ensures ContextRows(ts) == [] ==> CfgRows(ts) == [] && FeatureRows(ts, true) == [] && FeatureRows(ts, false) == []
    ensures EntryRows(ts) == [] ==> DescriptorRows(ts) == []
    decreases |ts|
  {
    if ts != [] {
      var front, last := ts[..|ts| - 1], ts[|ts| - 1];
      assert ts == front + [last];
      HeadersFirstGrows(front, last);
      NoRowsWithoutHeader(front);
      ViewsGrow(front, last);
    }
  }

  lemma OtherCheck(ts: seq<Target>, t: Target)
    requires (t.DefinitionTarget? || t.LocalBinding? || t.Builtin?) && WellFormed(ts)
    ensures PushRow(StateOf(ts), t) == Some(StateOf(ts + [t])) && WellFormed(ts + [t])
  {
    hide ContextRows, EntryRows, CfgRows, FeatureRows, DescriptorRows, Table, DescriptorTable, MatchesHarness,
      HeadersFirst, Keys, ConstantRows;
    ViewsGrow(ts, t);
    HeadersFirstGrows(ts, t);
  }

  /** A sequence that is not well formed stays so whatever follows. */
  lemma WellFormedPrefix(ts: seq<Target>, t: Target)
    requires WellFormed(ts + [t])
    ensures WellFormed(ts)
  {
    hide ContextRows, EntryRows, CfgRows, FeatureRows, DescriptorRows, Table, DescriptorTable, MatchesHarness,
      HeadersFirst, Keys, ConstantRows;
    ViewsGrow(ts, t);
    HeadersFirstGrows(ts, t);
    if t.Cfg? { TableGrows(CfgRows(ts), (t.cfg.ordinal, (t.cfg.name, t.cfg.value))); }
    if t.Feature? { TableGrows(FeatureRows(ts, t.feature.stable), (t.feature.ordinal, t.feature.name)); }
    if t.Descriptor? {
      DescriptorTableGrows(DescriptorRows(ts), t.descriptor);
      if EntryRows(ts) != [] { MatchesHarnessGrows(DescriptorRows(ts), t.descriptor, EntryRows(ts)[0]); }
    }
  }

  lemma PushCheck(ts: seq<Target>, t: Target)
    requires WellFormed(ts)
    ensures PushRow(StateOf(ts), t) == if WellFormed(ts + [t]) then Some(StateOf(ts + [t])) else None
  {
    hide WellFormed, StateOf, PushRow;
    match t
    case Context(_) => ContextCheck(ts, t);
    case Entry(_) => EntryCheck(ts, t);
    case Cfg(_) => CfgCheck(ts, t);
    case Feature(_) => FeatureCheck(ts, t);
    case Descriptor(_) => DescriptorCheck(ts, t);
    case _ => OtherCheck(ts, t);
  }

  /** The fold accepts exactly the well-formed row sequences, and remembers exactly their tables. */
  lemma {:induction false} ObserveMeaning(ts: seq<Target>)
    ensures Observe(ts) == if WellFormed(ts) then Some(StateOf(ts)) else None
    decreases |ts|
  {
    if ts != [] {
      hide WellFormed, StateOf, PushRow;
      var front, last := ts[..|ts| - 1], ts[|ts| - 1];
      assert ts == front + [last];
      ObserveMeaning(front);
      if WellFormed(front) { PushCheck(front, last); } else if WellFormed(ts) { WellFormedPrefix(front, last); }
    }
  }
}
