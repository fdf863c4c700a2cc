/**
 Seeding of the built-in agents at start-up (server.py, seed_agents): a missing agent is
 inserted as specified, an existing one is brought up to date without touching what the user
 configured.  The table is the sequence of its rows; names are unique in it.
 */
module AgentSeeds {
  import opened Wrappers

  const WORKFLOW := "workflow"
  const CAPABILITY := "capability"
  const INTRADAY := "intraday_monitor"
  const EVENT_ONLY := "event_only"

  /** A stored configuration: null, a JSON object, or some other JSON value. */
  datatype Config = Nothing | Dict(entries: map<string, string>) | Other(truthy: bool, text: string)

  predicate Truthy(c: Config) {
    (c.Dict? && c.entries != map[]) || (c.Other? && c.truthy)
  }

  datatype Spec = Spec(name: string, displayName: string, description: string, kind: string, visible: bool,
                       lifecycle: string, replacedBy: string, order: int, enabled: bool, schedule: string,
                       mode: string, config: Option<map<string, string>>)

  /** `user` stands for the columns seeding never writes. */
  datatype Row = Row(name: string, displayName: string, description: string, kind: string, visible: bool,
                     lifecycle: string, replacedBy: string, order: int, enabled: bool, schedule: string,
                     mode: string, config: Config, user: string)

  function Or(a: string, b: string): string {
    if a != "" then a else b
  }

  function NewRow(s: Spec): Row {
    Row(s.name, s.displayName, s.description, s.kind, s.visible, s.lifecycle, s.replacedBy, s.order,
        s.enabled, s.schedule, s.mode, Dict(s.config.GetOr(map[])), "")
  }

  /**
   What a pass leaves stored as configuration.  An empty or missing one is filled; one with
   contents stays as it is, also where the program adds event_only: it changes the loaded
   dictionary in place and assigns it to itself, which the mapper does not see as a change
   (derived in `AgentTable.RefreshConfig`).
   */
  function UpdateConfig(name: string, c: Config, s: Spec): Config {
    var default := s.config.GetOr(map[]);
    if Truthy(c) then c
    else if name == INTRADAY && EVENT_ONLY !in default then Dict(default[EVENT_ONLY := "True"])
    else if default != map[] then Dict(default)
    else c
  }

  function Update(r: Row, s: Spec): Row {
    Row(r.name, Or(s.displayName, r.displayName), Or(s.description, r.description), s.kind, s.visible,
        Or(s.lifecycle, "active"), s.replacedBy, s.order,
        if s.kind != WORKFLOW then false else r.enabled,
        if s.kind != WORKFLOW then "" else r.schedule,
        Or(s.mode, "batch"), UpdateConfig(r.name, r.config, s), r.user)
  }

  function Find(rows: seq<Row>, name: string): nat {
    if rows == [] || rows[0].name == name then 0 else 1 + Find(rows[1..], name)
  }

  function Upsert(rows: seq<Row>, s: Spec): seq<Row> {
    var k := Find(rows, s.name);
    if k < |rows| then rows[k := Update(rows[k], s)] else rows + [NewRow(s)]
  }

  function SeedAll(rows: seq<Row>, specs: seq<Spec>): seq<Row> {
    if specs == [] then rows else Upsert(SeedAll(rows, specs[..|specs| - 1]), specs[|specs| - 1])
  }

  predicate DistinctNames(rows: seq<Row>) {
    forall i, j | 0 <= i < j < |rows| :: rows[i].name != rows[j].name
  }

  predicate DistinctSpecs(specs: seq<Spec>) {
    forall i, j | 0 <= i < j < |specs| :: specs[i].name != specs[j].name
  }

  lemma {:induction false} FindIsFirst(rows: seq<Row>, name: string)
    ensures var k := Find(rows, name);
            && k <= |rows| && (k < |rows| ==> rows[k].name == name)
            && (forall i | 0 <= i < k :: rows[i].name != name)
  {
    if rows == [] || rows[0].name == name {
    } else {
      FindIsFirst(rows[1..], name);
    }
  }

  predicate Named(rows: seq<Row>, name: string) {
    exists i :: 0 <= i < |rows| && rows[i].name == name
  }

  /** What a pass makes of one row. */
  ghost predicate Seeded(before: Row, specs: seq<Spec>, after: Row) {
    && ((forall s | s in specs :: s.name != before.name) ==> after == before)
    && (forall s | s in specs && s.name == before.name :: after == Update(before, s))
  }

  ghost predicate IsFresh(row: Row, specs: seq<Spec>) {
    exists s :: s in specs && row == NewRow(s)
  }

  /** A pass updates every row by its spec, and appends a row for every spec that had none. */
  ghost predicate Pass(rows: seq<Row>, specs: seq<Spec>, after: seq<Row>) {
    && |rows| <= |after| && DistinctNames(after)
    && (forall i | 0 <= i < |rows| :: after[i].name == rows[i].name && Seeded(rows[i], specs, after[i]))
    && (forall i | |rows| <= i < |after| :: IsFresh(after[i], specs))
    && (forall s | s in specs :: Named(after, s.name))
  }

  lemma {:induction false} SeedingIsAPass(rows: seq<Row>, specs: seq<Spec>)
    requires DistinctNames(rows) && DistinctSpecs(specs)
    ensures Pass(rows, specs, SeedAll(rows, specs))
  {
    if specs == [] {
    } else {
      var init, last := specs[..|specs| - 1], specs[|specs| - 1];
      var before := SeedAll(rows, init);
      SeedingIsAPass(rows, init);
      assert specs == init + [last];
      PassOneMore(rows, init, before, last);
    }
  }

  lemma {:induction false} SeededOneMore(row: Row, init: seq<Spec>, after: Row, last: Spec)
    requires Seeded(row, init, after) && DistinctSpecs(init + [last]) && after.name == row.name
    ensures Seeded(row, init + [last], if last.name == row.name then Update(after, last) else after)
  {
    var specs := init + [last];
    assert specs[|init|] == last;
    forall s | s in init ensures s.name != last.name {
      var i :| 0 <= i < |init| && init[i] == s;
      assert specs[i] == s;
    }
    assert forall s | s in init :: s in specs;
  }

  lemma {:induction false} FreshOneMore(row: Row, init: seq<Spec>, last: Spec)
    requires IsFresh(row, init) && DistinctSpecs(init + [last])
    ensures row.name != last.name && IsFresh(row, init + [last])
  {
    var s :| s in init && row == NewRow(s);
    var j :| 0 <= j < |init| && init[j] == s;
    assert (init + [last])[j] == s && (init + [last])[|init|] == last;
    assert s in init + [last];
  }

  lemma {:induction false} NamedAt(rows: seq<Row>, i: nat)
    requires i < |rows|
    ensures Named(rows, rows[i].name)
  {}

  lemma {:induction false} NamesStay(before: seq<Row>, after: seq<Row>, name: string)
    requires |before| <= |after| && forall i | 0 <= i < |before| :: after[i].name == before[i].name
    requires Named(before, name)
    ensures Named(after, name)
  {}

  lemma {:induction false} PassUpdates(rows: seq<Row>, init: seq<Spec>, before: seq<Row>, last: Spec, k: nat)
    requires Pass(rows, init, before) && DistinctSpecs(init + [last])
    requires k < |before| && before[k].name == last.name
    ensures Pass(rows, init + [last], before[k := Update(before[k], last)])
  {
    var specs, after := init + [last], before[k := Update(before[k], last)];
    assert forall i | 0 <= i < |before| :: after[i].name == before[i].name;
    hide Update, NewRow, Seeded, Named, IsFresh, DistinctSpecs;
    assert DistinctNames(after);
    forall i | 0 <= i < |rows| ensures Seeded(rows[i], specs, after[i]) {
      SeededOneMore(rows[i], init, before[i], last);
    }
    forall i | |rows| <= i < |after| ensures IsFresh(after[i], specs) {
      FreshOneMore(before[i], init, last);
    }
    forall s | s in specs ensures Named(after, s.name) {
      if s == last {
        NamedAt(after, k);
      } else {
        NamesStay(before, after, s.name);
      }
    }
  }

  lemma {:induction false} PassAppends(rows: seq<Row>, init: seq<Spec>, before: seq<Row>, last: Spec)
    requires Pass(rows, init, before) && DistinctSpecs(init + [last])
    requires forall i | 0 <= i < |before| :: before[i].name != last.name
    ensures Pass(rows, init + [last], before + [NewRow(last)])
  {
    var specs, after := init + [last], before + [NewRow(last)];
    assert last in specs && IsFresh(NewRow(last), specs) && NewRow(last).name == last.name;
    hide Update, NewRow, Seeded, Named, IsFresh, DistinctSpecs;
    assert DistinctNames(after);
    forall i | 0 <= i < |rows| ensures Seeded(rows[i], specs, after[i]) {
      assert before[i].name != last.name;
      SeededOneMore(rows[i], init, before[i], last);
    }
    forall i | |rows| <= i < |before| ensures IsFresh(after[i], specs) {
      FreshOneMore(before[i], init, last);
    }
    forall s | s in specs ensures Named(after, s.name) {
      if s == last {
        NamedAt(after, |before|);
      } else {
        NamesStay(before, after, s.name);
      }
    }
  }

  lemma {:induction false} PassOneMore(rows: seq<Row>, init: seq<Spec>, before: seq<Row>, last: Spec)
    requires Pass(rows, init, before) && DistinctSpecs(init + [last])
    ensures Pass(rows, init + [last], Upsert(before, last))
  {
    FindIsFirst(before, last.name);
    hide Pass, Update, NewRow, DistinctSpecs;
    if Find(before, last.name) < |before| {
      PassUpdates(rows, init, before, last, Find(before, last.name));
    } else {
      PassAppends(rows, init, before, last);
    }
  }

  // ---- Fixed points --------------------------------------------------------------------------------------

  lemma {:induction false} UpdateTwice(r: Row, s: Spec)
    ensures Update(Update(r, s), s) == Update(r, s)
  {}

  /** A spec whose fresh row is already what an update would make of it. */
  predicate Complete(s: Spec) {
    && s.mode != "" && s.lifecycle != ""
    && (s.kind != WORKFLOW ==> !s.enabled && s.schedule == "")
    && (s.name == INTRADAY ==> s.config.GetOr(map[]) != map[])
  }

  lemma {:induction false} FreshRowIsFinalIff(s: Spec)
    ensures Update(NewRow(s), s) == NewRow(s) <==> Complete(s)
  {}

  lemma {:induction false} PassIsUnique(rows: seq<Row>, specs: seq<Spec>, i: nat, s: Spec)
    requires DistinctNames(rows) && DistinctSpecs(specs)
    requires i < |rows| && s in specs && s.name == rows[i].name
    ensures i < |SeedAll(rows, specs)| && SeedAll(rows, specs)[i] == Update(rows[i], s)
  {
    SeedingIsAPass(rows, specs);
  }

  /** An appended row belongs to a spec that had none. */
  lemma {:induction false} AppendedIsNew(rows: seq<Row>, specs: seq<Spec>, after: seq<Row>, i: nat)
    requires Pass(rows, specs, after) && |rows| <= i < |after|
    ensures exists s :: s in specs && after[i] == NewRow(s) && !Named(rows, s.name)
  {
    var row := after[i];
    var s :| s in specs && row == NewRow(s);
    forall j | 0 <= j < |rows| ensures rows[j].name != s.name {
      assert after[j].name == rows[j].name;
    }
    assert s in specs && after[i] == NewRow(s) && !Named(rows, s.name);
  }

  /** A row in the table that the spec's update leaves alone. */
  ghost predicate UpToDate(rows: seq<Row>, s: Spec) {
    exists i :: 0 <= i < |rows| && rows[i].name == s.name && Update(rows[i], s) == rows[i]
  }

  /** A pass changes nothing iff every spec has a row that its update leaves alone. */
  lemma {:induction false} SeedingFixedPoints(rows: seq<Row>, specs: seq<Spec>)
    requires DistinctNames(rows) && DistinctSpecs(specs)
    ensures SeedAll(rows, specs) == rows <==> forall s | s in specs :: UpToDate(rows, s)
  {
    var after := SeedAll(rows, specs);
    SeedingIsAPass(rows, specs);
    hide Update, SeedAll, NewRow;
    if after == rows {
      forall s | s in specs ensures UpToDate(rows, s) {
        var i :| 0 <= i < |after| && after[i].name == s.name;
        assert rows[i].name == s.name && Update(rows[i], s) == rows[i];
      }
    } else if forall s | s in specs :: UpToDate(rows, s) {
      forall i | 0 <= i < |rows| ensures after[i] == rows[i] {
        if s :| s in specs && s.name == rows[i].name {
          var j :| 0 <= j < |rows| && rows[j].name == s.name && Update(rows[j], s) == rows[j];
          assert i == j;
        }
      }
      assert forall s | s in specs :: Named(rows, s.name);
      if |after| > |rows| {
        AppendedIsNew(rows, specs, after, |rows|);
        assert false;
      }
    }
  }

  /** A row as an update of some spec leaves it, or as its spec inserts it. */
  lemma {:induction false} AfterPass(rows: seq<Row>, specs: seq<Spec>, s: Spec) returns (i: nat)
    requires DistinctNames(rows) && DistinctSpecs(specs) && s in specs
    ensures var after := SeedAll(rows, specs);
            && i < |after| && after[i].name == s.name
            && (if Named(rows, s.name) then i < |rows| && after[i] == Update(rows[i], s)
                else i >= |rows| && after[i] == NewRow(s))
  {
    var after := SeedAll(rows, specs);
    SeedingIsAPass(rows, specs);
    var k :| 0 <= k < |after| && after[k].name == s.name;
    i := k;
    if i < |rows| {
      assert rows[i].name == s.name;
    } else {
      forall j | 0 <= j < |rows| ensures rows[j].name != s.name {
        assert after[j].name == rows[j].name;
      }
      var t :| t in specs && after[i] == NewRow(t);
      var x :| 0 <= x < |specs| && specs[x] == s;
      var y :| 0 <= y < |specs| && specs[y] == t;
      assert x == y;
    }
  }

  /** The row carries the spec's identity and, unless it is a workflow, is switched off. */
  predicate IsInForce(r: Row, s: Spec) {
    && r.name == s.name && r.kind == s.kind && r.visible == s.visible && r.order == s.order
    && r.mode != "" && r.lifecycle != ""
    && (s.kind != WORKFLOW ==> !r.enabled && r.schedule == "")
  }

  lemma {:induction false} UpdatePutsInForce(r: Row, s: Spec)
    requires r.name == s.name
    ensures IsInForce(Update(r, s), s)
  {}

  lemma {:induction false} SpecAfterTwoPasses(rows: seq<Row>, specs: seq<Spec>, s: Spec)
    requires DistinctNames(rows) && DistinctSpecs(specs) && s in specs
    ensures var twice := SeedAll(SeedAll(rows, specs), specs);
            UpToDate(twice, s) && exists i :: 0 <= i < |twice| && IsInForce(twice[i], s)
  {
    var once := SeedAll(rows, specs);
    SeedingIsAPass(rows, specs);
    var j := AfterPass(rows, specs, s);
    var i := AfterPass(once, specs, s);
    UpdateTwice(once[i], s);
    UpdatePutsInForce(once[i], s);
    hide Update, IsInForce;
    var twice := SeedAll(once, specs);
    assert twice[i].name == s.name && Update(twice[i], s) == twice[i] && IsInForce(twice[i], s);
  }

  /** Running the seeding twice reaches a fixed point, in which every spec is in force. */
  lemma {:induction false} TwoPassesSettle(rows: seq<Row>, specs: seq<Spec>)
    requires DistinctNames(rows) && DistinctSpecs(specs)
    ensures var twice := SeedAll(SeedAll(rows, specs), specs);
            && SeedAll(twice, specs) == twice
            && (forall s | s in specs :: exists i :: 0 <= i < |twice| && IsInForce(twice[i], s))
  {
    var once := SeedAll(rows, specs);
    SeedingIsAPass(rows, specs);
    SeedingIsAPass(once, specs);
    forall s | s in specs
      ensures var twice := SeedAll(once, specs);
              UpToDate(twice, s) && exists i :: 0 <= i < |twice| && IsInForce(twice[i], s)
    {
      SpecAfterTwoPasses(rows, specs, s);
    }
    SeedingFixedPoints(SeedAll(once, specs), specs);
    hide Update, IsInForce;
  }

  /** One pass is enough iff every spec that had no row is complete. */
  lemma {:induction false} OnePassIsEnoughIff(rows: seq<Row>, specs: seq<Spec>)
    requires DistinctNames(rows) && DistinctSpecs(specs)
    ensures SeedAll(SeedAll(rows, specs), specs) == SeedAll(rows, specs) <==>
            forall s | s in specs && !Named(rows, s.name) :: Complete(s)
  {
    var once := SeedAll(rows, specs);
    SeedingIsAPass(rows, specs);
    SeedingFixedPoints(once, specs);
    forall s | s in specs
      ensures UpToDate(once, s) <==> Named(rows, s.name) || Complete(s)
    {
      var i := AfterPass(rows, specs, s);
      FreshRowIsFinalIff(s);
      if i < |rows| {
        UpdateTwice(rows[i], s);
      }
      hide Update, Complete;
      assert forall j | 0 <= j < |once| && once[j].name == s.name :: j == i;
      if Named(rows, s.name) || Complete(s) {
        assert once[i].name == s.name && Update(once[i], s) == once[i];
      }
    }
  }

  /** An enabled capability on an empty table: the first pass inserts it enabled, the second switches it off. */
  lemma {:induction false} FreshCapabilityRunsUntilTheNextPass(s: Spec)
    requires s.kind != WORKFLOW && s.enabled
    ensures var once := SeedAll([], [s]);
            && |once| == 1 && once[0].enabled
            && |SeedAll(once, [s])| == 1 && !SeedAll(once, [s])[0].enabled
  {
    assert [s][..0] == [];
    assert SeedAll([], [s]) == Upsert([], s) == [NewRow(s)];
    assert SeedAll([NewRow(s)], [s]) == Upsert([NewRow(s)], s) == [Update(NewRow(s), s)];
  }

  function Shipped(name: string, kind: string, lifecycle: string, order: int, enabled: bool, schedule: string,
                   mode: string, texts: string -> (string, string, string),
                   config: string -> Option<map<string, string>>): Spec
  {
    Spec(name, texts(name).0, texts(name).1, kind, kind == WORKFLOW, lifecycle, texts(name).2, order, enabled,
         schedule, mode, config(name))
  }

  /** The shipped catalogue, for any texts and settings. */
  function Catalogue(texts: string -> (string, string, string), config: string -> Option<map<string, string>>): seq<Spec> {
    [Shipped("premarket_outlook", WORKFLOW, "active", 10, false, "0 9 * * 1-5", "batch", texts, config),
     Shipped(INTRADAY, WORKFLOW, "active", 20, false, "*/5 9-15 * * 1-5", "single", texts, config),
     Shipped("daily_report", WORKFLOW, "active", 30, true, "30 15 * * 1-5", "batch", texts, config),
     Shipped("news_digest", CAPABILITY, "deprecated", 110, false, "", "batch", texts, config),
     Shipped("chart_analyst", CAPABILITY, "deprecated", 120, false, "", "single", texts, config),
     Shipped("tradingagents", WORKFLOW, "active", 40, false, "", "single", texts, config)]
  }

  /** With the shipped catalogue, whose intraday monitor has settings, one pass is enough for any table. */
  lemma {:induction false} ShippedNeedsOnePass(texts: string -> (string, string, string),
                                               config: string -> Option<map<string, string>>, rows: seq<Row>)
    requires DistinctNames(rows) && config(INTRADAY).GetOr(map[]) != map[]
    ensures var specs := Catalogue(texts, config);
            SeedAll(SeedAll(rows, specs), specs) == SeedAll(rows, specs)
  {
    var specs := Catalogue(texts, config);
    assert forall s | s in specs :: Complete(s);
    assert DistinctSpecs(specs);
    hide Complete, SeedAll, Catalogue;
    OnePassIsEnoughIff(rows, specs);
  }

  // ---- What the rows say after a pass ------------------------------------------------------------------------

  /** A row that was there takes over its spec's columns, where the spec has something to say. */
  lemma {:induction false} RowFollowsSpec(rows: seq<Row>, specs: seq<Spec>, i: nat, s: Spec)
    requires DistinctNames(rows) && DistinctSpecs(specs)
    requires i < |rows| && s in specs && s.name == rows[i].name
    ensures i < |SeedAll(rows, specs)|
    ensures var before, after := rows[i], SeedAll(rows, specs)[i];
            && after.displayName == (if s.displayName == "" then before.displayName else s.displayName)
            && after.description == (if s.description == "" then before.description else s.description)
            && after.kind == s.kind && after.visible == s.visible && after.order == s.order
            && after.replacedBy == s.replacedBy
            && after.lifecycle == (if s.lifecycle == "" then "active" else s.lifecycle)
            && after.mode == (if s.mode == "" then "batch" else s.mode)
            && after.enabled == (s.kind == "workflow" && before.enabled)
            && after.schedule == (if s.kind == "workflow" then before.schedule else "")
  {
    PassIsUnique(rows, specs, i, s);
  }

  /** An empty or missing configuration becomes the spec's, and the intraday monitor's gets event_only. */
  lemma {:induction false} ConfigIsFilled(rows: seq<Row>, specs: seq<Spec>, i: nat, s: Spec)
    requires DistinctNames(rows) && DistinctSpecs(specs)
    requires i < |rows| && s in specs && s.name == rows[i].name && !Truthy(rows[i].config)
    ensures i < |SeedAll(rows, specs)|
    ensures var c := SeedAll(rows, specs)[i].config;
            && (s.config.Some? && s.config.value != map[] ==>
                  c.Dict? && forall k | k in s.config.value :: k in c.entries && c.entries[k] == s.config.value[k])
            && (c.Dict? ==> forall k | k in c.entries :: (s.config.Some? && k in s.config.value)
                                                          || (s.name == "intraday_monitor" && k == "event_only" && c.entries[k] == "True"))
            && (s.name == "intraday_monitor" ==> c.Dict? && "event_only" in c.entries)
            && (s.name != "intraday_monitor" && s.config.GetOr(map[]) == map[] ==> c == rows[i].config)
  {
    PassIsUnique(rows, specs, i, s);
  }

  /** A spec without a row is inserted as it is, capabilities included. */
  lemma {:induction false} NewRowIsSpec(rows: seq<Row>, specs: seq<Spec>, s: Spec) returns (i: nat)
    requires DistinctNames(rows) && DistinctSpecs(specs) && s in specs && !Named(rows, s.name)
    ensures |rows| <= i < |SeedAll(rows, specs)|
    ensures var r := SeedAll(rows, specs)[i];
            && r.name == s.name && r.displayName == s.displayName && r.description == s.description
            && r.kind == s.kind && r.visible == s.visible && r.lifecycle == s.lifecycle
            && r.replacedBy == s.replacedBy && r.order == s.order
            && r.enabled == s.enabled && r.schedule == s.schedule && r.mode == s.mode
            && r.config == Dict(if s.config.Some? then s.config.value else map[])
  {
    i := AfterPass(rows, specs, s);
  }

  // ---- What the user keeps ----------------------------------------------------------------------------------

  /**
   A row that was there keeps its name and its other columns; a workflow row also keeps its
   enabled flag and its schedule, and every row keeps a configuration with contents exactly.
   Rows without a spec are not touched.
   */
  lemma {:induction false} ExistingRowsKeep(rows: seq<Row>, specs: seq<Spec>, i: nat)
    requires DistinctNames(rows) && DistinctSpecs(specs) && i < |rows|
    ensures var after := SeedAll(rows, specs);
            && i < |after| && after[i].name == rows[i].name && after[i].user == rows[i].user
            && ((forall s | s in specs :: s.name != rows[i].name) ==> after[i] == rows[i])
            && (after[i].kind == WORKFLOW ==>
                  after[i].enabled == rows[i].enabled && after[i].schedule == rows[i].schedule)
            && (Truthy(rows[i].config) ==> after[i].config == rows[i].config)
  {
    SeedingIsAPass(rows, specs);
    if s :| s in specs && s.name == rows[i].name {
      PassIsUnique(rows, specs, i, s);
    }
  }

  predicate HasEventOnly(c: Config) {
    c.Dict? && EVENT_ONLY in c.entries
  }

  /** The configuration an agent starts from: that of its row, or else what its spec inserts. */
  predicate StartsFrom(rows: seq<Row>, s: Spec, c: Config) {
    if Named(rows, s.name) then exists i :: 0 <= i < |rows| && rows[i].name == s.name && rows[i].config == c
    else c == NewRow(s).config
  }

  predicate EventOnlyStored(rows: seq<Row>) {
    exists i :: 0 <= i < |rows| && rows[i].name == INTRADAY && HasEventOnly(rows[i].config)
  }

  lemma {:induction false} EventOnlyAfterUpdateIff(r: Row, s: Spec)
    requires r.name == INTRADAY
    ensures HasEventOnly(Update(r, s).config) <==> HasEventOnly(r.config) || !Truthy(r.config)
  {}

  /**
   After two passes the intraday monitor has its event_only setting iff it started with it or
   started from an empty or missing configuration.
   */
  lemma {:induction false} EventOnlyStoredIff(rows: seq<Row>, specs: seq<Spec>, s: Spec, c: Config)
    requires DistinctNames(rows) && DistinctSpecs(specs) && s in specs && s.name == INTRADAY
    requires StartsFrom(rows, s, c)
    ensures EventOnlyStored(SeedAll(SeedAll(rows, specs), specs)) <==> HasEventOnly(c) || !Truthy(c)
  {
    var once := SeedAll(rows, specs);
    var twice := SeedAll(once, specs);
    SeedingIsAPass(rows, specs);
    SeedingIsAPass(once, specs);
    var i := AfterPass(rows, specs, s);
    var j := AfterPass(once, specs, s);
    assert Named(once, s.name) && i == j;
    EventOnlyAfterUpdateIff(once[i], s);
    if Named(rows, s.name) {
      EventOnlyAfterUpdateIff(rows[i], s);
      UpdateTwice(rows[i], s);
    }
    hide Update, HasEventOnly, Truthy, SeedAll;
    assert forall k | 0 <= k < |twice| && twice[k].name == INTRADAY :: k == i;
  }

  /** A monitor that a user configured without event_only never gets it, however it is specified. */
  lemma {:induction false} EventOnlyIsNotAdded(r: Row, specs: seq<Spec>, s: Spec)
    requires r.name == INTRADAY && r.config == Dict(map["throttle_minutes" := "30"])
    requires DistinctSpecs(specs) && s in specs && s.name == INTRADAY
    ensures !EventOnlyStored(SeedAll(SeedAll([r], specs), specs))
  {
    assert [r][0] == r && Named([r], INTRADAY);
    assert "throttle_minutes" in r.config.entries && Truthy(r.config) && !HasEventOnly(r.config);
    EventOnlyStoredIff([r], specs, s, r.config);
  }

  // ---- The table as the program updates it ------------------------------------------------------------------------

  /** A dictionary object as the program holds it. */
  class JsonDict {
    var entries: map<string, string>

    constructor (entries: map<string, string>)
      ensures this.entries == entries
    {
      this.entries := entries;
    }
  }

  /** The value of a JSON attribute in memory. */
  datatype Attribute = Null | Object(dict: JsonDict) | Scalar(truthy: bool, text: string)

  class AgentTable {
    var rows: seq<Row>

    constructor (rows: seq<Row>)
      ensures this.rows == rows
    {
      this.rows := rows;
    }

    method First(name: string) returns (k: nat)
      ensures k == Find(rows, name)
    {
      k := 0;
      while k < |rows| && rows[k].name != name
        invariant 0 <= k <= |rows|
        invariant forall i | 0 <= i < k :: rows[i].name != name
      {
        k := k + 1;
      }
      FindIsFirst(rows, name);
    }

    /** The field assignments on an existing agent. */
    method Refresh(k: nat, s: Spec)
      requires k < |rows|
      modifies this
      ensures rows == old(rows)[k := Update(old(rows)[k], s)]
    {
      var r := rows[k];
      r := r.(mode := Or(s.mode, "batch"));
      r := r.(displayName := Or(s.displayName, r.displayName));
      r := r.(description := Or(s.description, r.description));
      r := r.(kind := s.kind, visible := s.visible, lifecycle := Or(s.lifecycle, "active"));
      r := r.(replacedBy := s.replacedBy, order := s.order);
      if s.kind != WORKFLOW {
        r := r.(enabled := false, schedule := "");
      }
      var config := RefreshConfig(r.name, r.config, s);
      r := r.(config := config);
      rows := rows[k := r];
    }

    /**
     The steps on one configuration: it is loaded into an object, assigned to, and written only
     if the attribute's value then differs from that of the loaded object.
     */
    static method RefreshConfig(name: string, stored: Config, s: Spec) returns (written: Config)
      ensures written == UpdateConfig(name, stored, s)
    {
      var loaded := Null;
      match stored {
        case Nothing =>
        case Dict(entries) =>
          var dict := new JsonDict(entries);
          loaded := Object(dict);
        case Other(truthy, text) => loaded := Scalar(truthy, text);
      }
      var attribute := loaded;
      if s.config.GetOr(map[]) != map[] && !IsTruthy(attribute) {
        var dict := new JsonDict(s.config.value);
        attribute := Object(dict);
      }
      if name == INTRADAY {
        var cfg := attribute;
        if !IsTruthy(attribute) {
          var dict := new JsonDict(map[]);
          cfg := Object(dict);
        }
        if cfg.Object? && EVENT_ONLY !in cfg.dict.entries {
          cfg.dict.entries := cfg.dict.entries[EVENT_ONLY := "True"];
          attribute := cfg;
        }
      }
      written := if ValueOf(attribute) == ValueOf(loaded) then stored else ValueOf(attribute);
    }

    static predicate IsTruthy(a: Attribute)
      reads if a.Object? then {a.dict} else {}
    {
      Truthy(ValueOf(a))
    }

    static function ValueOf(a: Attribute): Config
      reads if a.Object? then {a.dict} else {}
    {
      match a
      case Null => Nothing
      case Object(dict) => Dict(dict.entries)
      case Scalar(truthy, text) => Other(truthy, text)
    }

    /** seed_agents */
    method SeedAgents(specs: seq<Spec>)
      modifies this
      ensures rows == SeedAll(old(rows), specs)
    {
      for n := 0 to |specs|
        invariant rows == SeedAll(old(rows), specs[..n])
      {
        var k := First(specs[n].name);
        assert specs[..n + 1][..n] == specs[..n];
        if k >= |rows| {
          rows := rows + [NewRow(specs[n])];
        } else {
          Refresh(k, specs[n]);
        }
      }
      assert specs[..|specs|] == specs;
    }
  }
}
