/**
 Reconciliation of the data-source table at start-up (server.py): seed_data_sources inserts the
 missing presets and reconcile_data_sources then deletes every row whose provider is not legal
 for its type.  Presets are matched by (name, provider), legality is by (type, provider).

 The table is the sequence of its rows in id order, in which a query finds the first match.
 The presets and the engine's vendors are arbitrary.
 */
module DataSources {
  import opened Wrappers

  datatype Seed = Seed(name: string, kind: string, provider: string, config: string, enabled: bool,
                       priority: int, supportsBatch: bool, testSymbols: seq<string>)

  datatype Row = Row(id: nat, seed: Seed)

  /** A preset's or a row's identity for matching. */
  type Key = (string, string)

  function KeyOf(s: Seed): Key {
    (s.name, s.provider)
  }

  /** What a run is given: the presets, PACKAGE_VENDORS_BY_TYPE, and the reset flag. */
  datatype Setup = Setup(seeds: seq<Seed>, vendors: map<string, set<string>>, reset: bool)

  // ---- One preset ------------------------------------------------------------------------------------

  /** The fields a matching row takes over from a preset. */
  function SyncOne(reset: bool, row: Row, s: Seed): Row {
    row.(seed := row.seed.(
      supportsBatch := s.supportsBatch,
      testSymbols := if reset || row.seed.testSymbols == [] then s.testSymbols else row.seed.testSymbols))
  }

  /** The index of the first row with this key, or the length of the table. */
  function Find(rows: seq<Row>, key: Key): nat {
    if rows == [] || KeyOf(rows[0].seed) == key then 0 else 1 + Find(rows[1..], key)
  }

  function Max(a: nat, b: nat): nat {
    if a < b then b else a
  }

  function MaxId(rows: seq<Row>): nat {
    if rows == [] then 0 else Max(rows[0].id, MaxId(rows[1..]))
  }

  function Upsert(reset: bool, rows: seq<Row>, s: Seed): seq<Row> {
    var k := Find(rows, KeyOf(s));
    if k < |rows| then rows[k := SyncOne(reset, rows[k], s)] else rows + [Row(MaxId(rows) + 1, s)]
  }

  function SeedAll(reset: bool, rows: seq<Row>, seeds: seq<Seed>): seq<Row> {
    if seeds == [] then rows else Upsert(reset, SeedAll(reset, rows, seeds[..|seeds| - 1]), seeds[|seeds| - 1])
  }

  /** The presets that were missing when their turn came. */
  function Missing(reset: bool, rows: seq<Row>, seeds: seq<Seed>): seq<Seed> {
    if seeds == [] then []
    else
      var init, last := seeds[..|seeds| - 1], seeds[|seeds| - 1];
      var before := SeedAll(reset, rows, init);
      Missing(reset, rows, init) + if Find(before, KeyOf(last)) < |before| then [] else [last]
  }

  // ---- Legality -----------------------------------------------------------------------------------------

  predicate IsLegal(setup: Setup, row: Row) {
    || (row.seed.kind in setup.vendors && row.seed.provider in setup.vendors[row.seed.kind])
    || (exists s | s in setup.seeds :: s.kind == row.seed.kind && s.provider == row.seed.provider)
  }

  function Legal(setup: Setup, rows: seq<Row>): seq<Row> {
    if rows == [] then []
    else Legal(setup, rows[..|rows| - 1]) + if IsLegal(setup, rows[|rows| - 1]) then [rows[|rows| - 1]] else []
  }

  function Orphans(setup: Setup, rows: seq<Row>): seq<Row> {
    if rows == [] then []
    else Orphans(setup, rows[..|rows| - 1]) + if IsLegal(setup, rows[|rows| - 1]) then [] else [rows[|rows| - 1]]
  }

  function Reconcile(setup: Setup, rows: seq<Row>): seq<Row> {
    Legal(setup, SeedAll(setup.reset, rows, setup.seeds))
  }

  // ---- Matching ------------------------------------------------------------------------------------------

  lemma {:induction false} FindIsFirst(rows: seq<Row>, key: Key)
    ensures var k := Find(rows, key);
            && k <= |rows| && (k < |rows| ==> KeyOf(rows[k].seed) == key)
            && (forall i | 0 <= i < k :: KeyOf(rows[i].seed) != key)
  {
    if rows == [] || KeyOf(rows[0].seed) == key {
    } else {
      FindIsFirst(rows[1..], key);
    }
  }

  lemma {:induction false} FindIs(rows: seq<Row>, key: Key, k: nat)
    requires k < |rows| && KeyOf(rows[k].seed) == key
    requires forall i | 0 <= i < k :: KeyOf(rows[i].seed) != key
    ensures Find(rows, key) == k
  {
    FindIsFirst(rows, key);
  }

  /** Same keys up to the length of the shorter table: the same first match there. */
  lemma {:induction false} FindInPrefix(rows: seq<Row>, more: seq<Row>, key: Key)
    requires |rows| <= |more|
    requires forall i | 0 <= i < |rows| :: KeyOf(more[i].seed) == KeyOf(rows[i].seed)
    ensures Find(rows, key) < |rows| ==> Find(more, key) == Find(rows, key)
    ensures Find(more, key) < |rows| ==> Find(rows, key) == Find(more, key)
  {
    FindIsFirst(rows, key);
    FindIsFirst(more, key);
  }

  // ---- What one row takes over from all presets -------------------------------------------------------------

  function SyncAll(reset: bool, row: Row, seeds: seq<Seed>): Row {
    if seeds == [] then row
    else
      var r := SyncAll(reset, row, seeds[..|seeds| - 1]);
      if KeyOf(seeds[|seeds| - 1]) == KeyOf(row.seed) then SyncOne(reset, r, seeds[|seeds| - 1]) else r
  }

  /** b is a, except perhaps for the two fields that presets own. */
  predicate SameButSynced(a: Row, b: Row) {
    b == a.(seed := a.seed.(supportsBatch := b.seed.supportsBatch, testSymbols := b.seed.testSymbols))
  }

  lemma {:induction false} SyncAllKeeps(reset: bool, row: Row, seeds: seq<Seed>)
    ensures var r := SyncAll(reset, row, seeds);
            && SameButSynced(row, r)
            && (!reset && row.seed.testSymbols != [] ==> r.seed.testSymbols == row.seed.testSymbols)
            && ((forall s | s in seeds :: KeyOf(s) != KeyOf(row.seed)) ==> r == row)
  {
    if seeds == [] {
    } else {
      SyncAllKeeps(reset, row, seeds[..|seeds| - 1]);
      assert seeds[|seeds| - 1] in seeds;
    }
  }

  /** The test symbols a row ends up with depend on those it had, not on its other fields. */
  lemma {:induction false} TestsDependOnTests(reset: bool, a: Row, b: Row, seeds: seq<Seed>)
    requires KeyOf(a.seed) == KeyOf(b.seed) && a.seed.testSymbols == b.seed.testSymbols
    ensures SyncAll(reset, a, seeds).seed.testSymbols == SyncAll(reset, b, seeds).seed.testSymbols
  {
    if seeds == [] {
    } else {
      TestsDependOnTests(reset, a, b, seeds[..|seeds| - 1]);
    }
  }

  /** A row in step with some presets, given one more, is in step with all of them. */
  lemma {:induction false} SettleOneMore(reset: bool, row: Row, seeds: seq<Seed>, s: Seed)
    requires SyncAll(reset, row, seeds) == row && KeyOf(s) == KeyOf(row.seed)
    ensures SyncAll(reset, SyncOne(reset, row, s), seeds + [s]) == SyncOne(reset, row, s)
  {
    var next := SyncOne(reset, row, s);
    assert (seeds + [s])[..|seeds|] == seeds;
    SyncAllKeeps(reset, next, seeds);
    if next.seed.testSymbols == row.seed.testSymbols {
      TestsDependOnTests(reset, next, row, seeds);
    }
  }

  lemma {:induction false} SyncAllSettles(reset: bool, row: Row, seeds: seq<Seed>)
    ensures SyncAll(reset, SyncAll(reset, row, seeds), seeds) == SyncAll(reset, row, seeds)
  {
    if seeds == [] {
    } else {
      var init, last := seeds[..|seeds| - 1], seeds[|seeds| - 1];
      var r := SyncAll(reset, row, init);
      SyncAllSettles(reset, row, init);
      SyncAllKeeps(reset, row, init);
      assert seeds == init + [last];
      if KeyOf(last) == KeyOf(row.seed) {
        SettleOneMore(reset, r, init, last);
      }
    }
  }

  /** The last preset with this key. */
  function LastMatch(seeds: seq<Seed>, key: Key): Option<Seed> {
    if seeds == [] then None
    else if KeyOf(seeds[|seeds| - 1]) == key then Some(seeds[|seeds| - 1])
    else LastMatch(seeds[..|seeds| - 1], key)
  }

  predicate NoTests(seeds: seq<Seed>, key: Key) {
    forall s | s in seeds :: KeyOf(s) == key ==> s.testSymbols == []
  }

  /**
   A row in step with the presets: it has the batch flag of the last preset with its key, and on
   a reset also that preset's test symbols; otherwise it has some test symbols, unless none of
   its presets offers any.
   */
  predicate InStep(reset: bool, row: Row, seeds: seq<Seed>) {
    var last := LastMatch(seeds, KeyOf(row.seed));
    last.Some? ==>
      && row.seed.supportsBatch == last.value.supportsBatch
      && (if reset then row.seed.testSymbols == last.value.testSymbols
          else row.seed.testSymbols != [] || NoTests(seeds, KeyOf(row.seed)))
  }

  /** The test symbols of the first preset with this key that offers any. */
  function FirstTests(seeds: seq<Seed>, key: Key): seq<string> {
    if seeds == [] then []
    else
      var before, last := FirstTests(seeds[..|seeds| - 1], key), seeds[|seeds| - 1];
      if before != [] then before else if KeyOf(last) == key then last.testSymbols else []
  }

  lemma {:induction false} SyncAllIs(reset: bool, row: Row, seeds: seq<Seed>)
    ensures var r, last := SyncAll(reset, row, seeds), LastMatch(seeds, KeyOf(row.seed));
            && SameButSynced(row, r)
            && (last.None? ==> r == row)
            && (last.Some? ==> r.seed.supportsBatch == last.value.supportsBatch)
            && (last.Some? && reset ==> r.seed.testSymbols == last.value.testSymbols)
            && (!reset && row.seed.testSymbols != [] ==> r.seed.testSymbols == row.seed.testSymbols)
            && (!reset && row.seed.testSymbols == [] ==>
                  && r.seed.testSymbols == FirstTests(seeds, KeyOf(row.seed))
                  && (r.seed.testSymbols == [] <==> NoTests(seeds, KeyOf(row.seed))))
  {
    if seeds == [] {
    } else {
      var init, last := seeds[..|seeds| - 1], seeds[|seeds| - 1];
      SyncAllIs(reset, row, init);
      assert seeds == init + [last];
      assert NoTests(seeds, KeyOf(row.seed)) <==>
             NoTests(init, KeyOf(row.seed)) && (KeyOf(last) == KeyOf(row.seed) ==> last.testSymbols == []);
    }
  }

  /** Syncing leaves a row alone iff it is in step. */
  lemma {:induction false} InStepIff(reset: bool, row: Row, seeds: seq<Seed>)
    ensures SyncAll(reset, row, seeds) == row <==> InStep(reset, row, seeds)
  {
    SyncAllIs(reset, row, seeds);
  }

  // ---- The table after seeding -------------------------------------------------------------------------------

  /** What seeding does to the rows that were there: first matches are synced, all others kept. */
  predicate OldRows(reset: bool, rows: seq<Row>, seeds: seq<Seed>, after: seq<Row>) {
    && |rows| <= |after|
    && forall i | 0 <= i < |rows| ::
         after[i] == if Find(rows, KeyOf(rows[i].seed)) == i then SyncAll(reset, rows[i], seeds) else rows[i]
  }

  predicate IsPreset(seeds: seq<Seed>, row: Row) {
    exists s | s in seeds :: s.kind == row.seed.kind && s.provider == row.seed.provider && KeyOf(s) == KeyOf(row.seed)
  }

  /** What seeding adds: rows made from presets, alone with their key, and in step. */
  predicate NewRows(reset: bool, n: nat, seeds: seq<Seed>, after: seq<Row>) {
    forall i | n <= i < |after| ::
      && IsPreset(seeds, after[i])
      && Find(after, KeyOf(after[i].seed)) == i
      && SyncAll(reset, after[i], seeds) == after[i]
  }

  predicate AllPresent(rows: seq<Row>, seeds: seq<Seed>) {
    forall s | s in seeds :: Find(rows, KeyOf(s)) < |rows|
  }

  /** Syncing a first match changes no key, so every search finds what it found. */
  lemma {:induction false} SameMatches(reset: bool, before: seq<Row>, k: nat, s: Seed, key: Key)
    requires k < |before|
    ensures Find(before[k := SyncOne(reset, before[k], s)], key) == Find(before, key)
  {
    var after := before[k := SyncOne(reset, before[k], s)];
    FindInPrefix(before, after, key);
    FindIsFirst(before, key);
    FindIsFirst(after, key);
  }

  lemma {:induction false} UpdateOldRows(reset: bool, rows: seq<Row>, init: seq<Seed>, before: seq<Row>, last: Seed, k: nat)
    requires OldRows(reset, rows, init, before) && k == Find(before, KeyOf(last)) < |before|
    ensures OldRows(reset, rows, init + [last], before[k := SyncOne(reset, before[k], last)])
  {
    var after, seeds := before[k := SyncOne(reset, before[k], last)], init + [last];
    assert seeds[..|init|] == init;
    FindIsFirst(before, KeyOf(last));
    forall i | 0 <= i < |rows| ensures KeyOf(before[i].seed) == KeyOf(rows[i].seed) {
      SyncAllKeeps(reset, rows[i], init);
    }
    hide Find;
    forall i | 0 <= i < |rows|
      ensures after[i] == if Find(rows, KeyOf(rows[i].seed)) == i then SyncAll(reset, rows[i], seeds) else rows[i]
    {
      FindInPrefix(rows, before, KeyOf(rows[i].seed));
      FindIsFirst(rows, KeyOf(rows[i].seed));
    }
  }

  lemma {:induction false} UpdateNewRows(reset: bool, n: nat, init: seq<Seed>, before: seq<Row>, last: Seed, k: nat)
    requires NewRows(reset, n, init, before) && k == Find(before, KeyOf(last)) < |before|
    ensures NewRows(reset, n, init + [last], before[k := SyncOne(reset, before[k], last)])
  {
    var after, seeds := before[k := SyncOne(reset, before[k], last)], init + [last];
    assert seeds[..|init|] == init;
    FindIsFirst(before, KeyOf(last));
    hide Find;
    forall i | n <= i < |after|
      ensures IsPreset(seeds, after[i]) && Find(after, KeyOf(after[i].seed)) == i
              && SyncAll(reset, after[i], seeds) == after[i]
    {
      SameMatches(reset, before, k, last, KeyOf(before[i].seed));
      if i == k {
        SettleOneMore(reset, before[i], init, last);
      } else {
        assert KeyOf(before[i].seed) != KeyOf(last);
      }
      var s :| s in init && s.kind == before[i].seed.kind && s.provider == before[i].seed.provider
               && KeyOf(s) == KeyOf(before[i].seed);
      assert s in seeds;
    }
  }

  lemma {:induction false} UpdateRow(reset: bool, rows: seq<Row>, init: seq<Seed>, before: seq<Row>, last: Seed, k: nat)
    requires OldRows(reset, rows, init, before) && NewRows(reset, |rows|, init, before) && AllPresent(before, init)
    requires k == Find(before, KeyOf(last)) < |before|
    ensures var after := before[k := SyncOne(reset, before[k], last)];
            && OldRows(reset, rows, init + [last], after) && NewRows(reset, |rows|, init + [last], after)
            && AllPresent(after, init + [last])
  {
    UpdateOldRows(reset, rows, init, before, last, k);
    UpdateNewRows(reset, |rows|, init, before, last, k);
    hide Find, OldRows, NewRows, SyncOne;
    forall s | s in init + [last] ensures Find(before[k := SyncOne(reset, before[k], last)], KeyOf(s)) < |before| {
      SameMatches(reset, before, k, last, KeyOf(s));
    }
  }

  lemma {:induction false} AppendRow(reset: bool, rows: seq<Row>, init: seq<Seed>, before: seq<Row>, last: Seed, id: nat)
    requires OldRows(reset, rows, init, before) && NewRows(reset, |rows|, init, before) && AllPresent(before, init)
    requires Find(before, KeyOf(last)) == |before|
    ensures var after := before + [Row(id, last)];
            && OldRows(reset, rows, init + [last], after) && NewRows(reset, |rows|, init + [last], after)
            && AllPresent(after, init + [last])
  {
    hide Find;
    var row := Row(id, last);
    var after, seeds := before + [row], init + [last];
    assert seeds[..|init|] == init;
    FindIsFirst(before, KeyOf(last));
    forall i | 0 <= i < |rows|
      ensures after[i] == if Find(rows, KeyOf(rows[i].seed)) == i then SyncAll(reset, rows[i], seeds) else rows[i]
    {
      SyncAllKeeps(reset, rows[i], init);
    }
    forall key: Key ensures Find(before, key) < |before| ==> Find(after, key) == Find(before, key) {
      FindInPrefix(before, after, key);
    }
    forall i | |rows| <= i < |after|
      ensures IsPreset(seeds, after[i]) && Find(after, KeyOf(after[i].seed)) == i
              && SyncAll(reset, after[i], seeds) == after[i]
    {
      if i == |before| {
        FindIs(after, KeyOf(last), i);
        assert last in seeds;
        forall s | s in init ensures KeyOf(s) != KeyOf(last) {
          assert Find(before, KeyOf(s)) < |before|;
        }
        SyncAllKeeps(reset, row, init);
      } else {
        var s :| s in init && s.kind == before[i].seed.kind && s.provider == before[i].seed.provider
                 && KeyOf(s) == KeyOf(before[i].seed);
        assert s in seeds;
      }
    }
    FindIs(after, KeyOf(last), |before|);
  }

  predicate Seeded(reset: bool, rows: seq<Row>, seeds: seq<Seed>, after: seq<Row>) {
    OldRows(reset, rows, seeds, after) && NewRows(reset, |rows|, seeds, after) && AllPresent(after, seeds)
  }

  lemma {:induction false} SeedingOneMore(reset: bool, rows: seq<Row>, init: seq<Seed>, before: seq<Row>, last: Seed)
    requires Seeded(reset, rows, init, before)
    ensures Seeded(reset, rows, init + [last], Upsert(reset, before, last))
  {
    FindIsFirst(before, KeyOf(last));
    hide OldRows, NewRows, AllPresent, SyncOne, Find;
    if Find(before, KeyOf(last)) < |before| {
      UpdateRow(reset, rows, init, before, last, Find(before, KeyOf(last)));
    } else {
      AppendRow(reset, rows, init, before, last, MaxId(before) + 1);
    }
  }

  lemma {:induction false} Seeding(reset: bool, rows: seq<Row>, seeds: seq<Seed>)
    ensures Seeded(reset, rows, seeds, SeedAll(reset, rows, seeds))
  {
    if seeds == [] {
    } else {
      var init, last := seeds[..|seeds| - 1], seeds[|seeds| - 1];
      Seeding(reset, rows, init);
      SeedingOneMore(reset, rows, init, SeedAll(reset, rows, init), last);
      assert seeds == init + [last];
      hide Seeded;
    }
  }

  // ---- When seeding changes nothing -----------------------------------------------------------------------------

  /** Every preset has a row, and the first of its rows is in step. */
  predicate Settled(reset: bool, rows: seq<Row>, seeds: seq<Seed>) {
    forall s | s in seeds ::
      var k := Find(rows, KeyOf(s)); k < |rows| && InStep(reset, rows[k], seeds)
  }

  lemma {:induction false} SeedingAddsNothing(reset: bool, rows: seq<Row>, seeds: seq<Seed>)
    requires AllPresent(rows, seeds)
    ensures |SeedAll(reset, rows, seeds)| == |rows|
  {
    if seeds == [] {
    } else {
      var init, last := seeds[..|seeds| - 1], seeds[|seeds| - 1];
      assert forall s | s in init :: s in seeds;
      SeedingAddsNothing(reset, rows, init);
      Seeding(reset, rows, init);
      var before := SeedAll(reset, rows, init);
      forall i | 0 <= i < |rows| ensures KeyOf(before[i].seed) == KeyOf(rows[i].seed) {
        SyncAllKeeps(reset, rows[i], init);
      }
      assert last in seeds;
      FindInPrefix(rows, before, KeyOf(last));
    }
  }

  /** Seeding leaves a table alone iff it is settled. */
  lemma {:induction false} SeedingFixedPoints(reset: bool, rows: seq<Row>, seeds: seq<Seed>)
    ensures SeedAll(reset, rows, seeds) == rows <==> Settled(reset, rows, seeds)
  {
    Seeding(reset, rows, seeds);
    var after := SeedAll(reset, rows, seeds);
    if after == rows {
      forall s | s in seeds
        ensures var k := Find(rows, KeyOf(s)); k < |rows| && InStep(reset, rows[k], seeds)
      {
        FindIsFirst(rows, KeyOf(s));
        InStepIff(reset, rows[Find(rows, KeyOf(s))], seeds);
      }
    }
    if Settled(reset, rows, seeds) {
      SeedingAddsNothing(reset, rows, seeds);
      forall i | 0 <= i < |rows| ensures after[i] == rows[i] {
        SyncAllKeeps(reset, rows[i], seeds);
        if s :| s in seeds && KeyOf(s) == KeyOf(rows[i].seed) {
          InStepIff(reset, rows[Find(rows, KeyOf(s))], seeds);
        }
      }
    }
  }

  lemma {:induction false} SeededIsSettled(reset: bool, rows: seq<Row>, seeds: seq<Seed>)
    ensures Settled(reset, SeedAll(reset, rows, seeds), seeds)
  {
    var after := SeedAll(reset, rows, seeds);
    Seeding(reset, rows, seeds);
    forall i | 0 <= i < |rows| ensures KeyOf(after[i].seed) == KeyOf(rows[i].seed) {
      SyncAllKeeps(reset, rows[i], seeds);
    }
    forall s | s in seeds
      ensures var k := Find(after, KeyOf(s)); k < |after| && InStep(reset, after[k], seeds)
    {
      var k := Find(after, KeyOf(s));
      InStepIff(reset, after[k], seeds);
      FindIsFirst(after, KeyOf(s));
      if k < |rows| {
        FindInPrefix(rows, after, KeyOf(s));
        SyncAllSettles(reset, rows[k], seeds);
      }
    }
  }

  // ---- Deleting orphans -------------------------------------------------------------------------------------------

  predicate AllLegal(setup: Setup, rows: seq<Row>) {
    forall i | 0 <= i < |rows| :: IsLegal(setup, rows[i])
  }

  /** Deletion splits the table in order: the legal rows stay, the reported orphans go. */
  lemma {:induction false} DeletionSplits(setup: Setup, rows: seq<Row>)
    ensures AllLegal(setup, Legal(setup, rows))
    ensures forall r | r in Orphans(setup, rows) :: !IsLegal(setup, r)
    ensures multiset(rows) == multiset(Legal(setup, rows)) + multiset(Orphans(setup, rows))
  {
    if rows == [] {
    } else {
      DeletionSplits(setup, rows[..|rows| - 1]);
      assert rows == rows[..|rows| - 1] + [rows[|rows| - 1]];
    }
  }

  lemma {:induction false} NothingToDelete(setup: Setup, rows: seq<Row>)
    requires AllLegal(setup, rows)
    ensures Legal(setup, rows) == rows && Orphans(setup, rows) == []
  {
    if rows == [] {
    } else {
      NothingToDelete(setup, rows[..|rows| - 1]);
    }
  }

  lemma {:induction false} SyncedKeepsLegality(setup: Setup, a: Row, b: Row)
    requires b.seed.kind == a.seed.kind && b.seed.provider == a.seed.provider
    ensures IsLegal(setup, b) == IsLegal(setup, a)
  {}

  /** Seeding makes no row an orphan, and the rows it adds are legal. */
  lemma {:induction false} SeedingKeepsLegality(setup: Setup, rows: seq<Row>)
    ensures var after := SeedAll(setup.reset, rows, setup.seeds);
            && |rows| <= |after|
            && (forall i | 0 <= i < |rows| :: IsLegal(setup, after[i]) == IsLegal(setup, rows[i]))
            && (forall i | |rows| <= i < |after| :: IsLegal(setup, after[i]))
  {
    Seeding(setup.reset, rows, setup.seeds);
    var after := SeedAll(setup.reset, rows, setup.seeds);
    forall i | 0 <= i < |rows| ensures IsLegal(setup, after[i]) == IsLegal(setup, rows[i]) {
      SyncAllKeeps(setup.reset, rows[i], setup.seeds);
      SyncedKeepsLegality(setup, rows[i], after[i]);
    }
  }

  lemma {:induction false} SecondPassOnlySeeds(setup: Setup, rows: seq<Row>)
    requires AllLegal(setup, rows)
    ensures Orphans(setup, SeedAll(setup.reset, rows, setup.seeds)) == []
    ensures Reconcile(setup, rows) == SeedAll(setup.reset, rows, setup.seeds)
    ensures AllLegal(setup, Reconcile(setup, rows))
  {
    SeedingKeepsLegality(setup, rows);
    NothingToDelete(setup, SeedAll(setup.reset, rows, setup.seeds));
  }

  /**
   After one pass every row is legal; a second pass deletes nothing and settles the table; a
   third changes nothing.
   */
  lemma {:induction false} ReconciliationSettles(setup: Setup, rows: seq<Row>)
    ensures var once := Reconcile(setup, rows);
            var twice := Reconcile(setup, once);
            && AllLegal(setup, once)
            && Orphans(setup, SeedAll(setup.reset, once, setup.seeds)) == []
            && AllPresent(twice, setup.seeds)
            && Reconcile(setup, twice) == twice
  {
    var once := Reconcile(setup, rows);
    DeletionSplits(setup, SeedAll(setup.reset, rows, setup.seeds));
    SecondPassOnlySeeds(setup, once);
    Seeding(setup.reset, once, setup.seeds);
    var twice := Reconcile(setup, once);
    SeededIsSettled(setup.reset, once, setup.seeds);
    SeedingFixedPoints(setup.reset, twice, setup.seeds);
    SecondPassOnlySeeds(setup, twice);
  }

  // ---- What a user's rows keep ---------------------------------------------------------------------------------------

  lemma {:induction false} LegalRowsStay(setup: Setup, rows: seq<Row>, r: Row)
    ensures r in Legal(setup, rows) <==> r in rows && IsLegal(setup, r)
  {
    if rows == [] {
    } else {
      LegalRowsStay(setup, rows[..|rows| - 1], r);
      assert rows == rows[..|rows| - 1] + [rows[|rows| - 1]];
    }
  }

  /**
   A legal row survives a pass with everything but the batch flag and the test symbols as it
   was -- and entirely as it was unless it is the first match of a preset; test symbols that
   were set are only changed by a reset.
   */
  lemma {:induction false} LegalRowsSurvive(setup: Setup, rows: seq<Row>, i: nat)
    requires i < |rows| && IsLegal(setup, rows[i])
    ensures exists r: Row ::
              && r in Reconcile(setup, rows)
              && SameButSynced(rows[i], r)
              && (!setup.reset && rows[i].seed.testSymbols != [] ==> r.seed.testSymbols == rows[i].seed.testSymbols)
              && (Find(rows, KeyOf(rows[i].seed)) != i ==> r == rows[i])
              && ((forall s | s in setup.seeds :: KeyOf(s) != KeyOf(rows[i].seed)) ==> r == rows[i])
  {
    var after := SeedAll(setup.reset, rows, setup.seeds);
    Seeding(setup.reset, rows, setup.seeds);
    SeedingKeepsLegality(setup, rows);
    SyncAllKeeps(setup.reset, rows[i], setup.seeds);
    LegalRowsStay(setup, after, after[i]);
    assert SameButSynced(rows[i], after[i]);
  }

  // ---- When one pass is enough ------------------------------------------------------------------------------------------

  /** The first row that has this key and is legal, or the length of the table. */
  function FindLegal(setup: Setup, rows: seq<Row>, key: Key): nat {
    if rows == [] || (KeyOf(rows[0].seed) == key && IsLegal(setup, rows[0])) then 0
    else 1 + FindLegal(setup, rows[1..], key)
  }

  lemma {:induction false} FindLegalIsFirst(setup: Setup, rows: seq<Row>, key: Key)
    ensures var k := FindLegal(setup, rows, key);
            && k <= |rows|
            && (k < |rows| ==> KeyOf(rows[k].seed) == key && IsLegal(setup, rows[k]))
            && (forall i | 0 <= i < k :: KeyOf(rows[i].seed) != key || !IsLegal(setup, rows[i]))
  {
    if rows == [] || (KeyOf(rows[0].seed) == key && IsLegal(setup, rows[0])) {
    } else {
      FindLegalIsFirst(setup, rows[1..], key);
    }
  }

  lemma {:induction false} LegalOfCons(setup: Setup, row: Row, rows: seq<Row>)
    ensures Legal(setup, [row] + rows) == (if IsLegal(setup, row) then [row] else []) + Legal(setup, rows)
  {
    var whole := [row] + rows;
    if rows == [] {
    } else {
      LegalOfCons(setup, row, rows[..|rows| - 1]);
      assert whole[..|whole| - 1] == [row] + rows[..|rows| - 1];
    }
  }

  /** After deletion the first row with a key is the first legal one from before. */
  lemma {:induction false} FirstAfterDeletion(setup: Setup, rows: seq<Row>, key: Key)
    ensures var left := Legal(setup, rows);
            var k, l := Find(left, key), FindLegal(setup, rows, key);
            && k <= |left| && l <= |rows|
            && (k < |left| <==> l < |rows|)
            && (k < |left| ==> left[k] == rows[l])
  {
    if rows == [] {
    } else {
      assert rows == [rows[0]] + rows[1..];
      LegalOfCons(setup, rows[0], rows[1..]);
      FirstAfterDeletion(setup, rows[1..], key);
      var left, rest := Legal(setup, rows), Legal(setup, rows[1..]);
      if IsLegal(setup, rows[0]) {
        assert left[0] == rows[0] && left[1..] == rest;
      } else {
        assert left == rest;
      }
      hide Legal;
    }
  }

  /**
   A preset finds its row after one pass and needs no more work: nothing matched it, or its
   first match is legal, or the first legal match happens to be in step already.
   */
  predicate EnoughFor(setup: Setup, rows: seq<Row>, s: Seed) {
    var k, l := Find(rows, KeyOf(s)), FindLegal(setup, rows, KeyOf(s));
    || k >= |rows|
    || l == k
    || (l < |rows| && InStep(setup.reset, rows[l], setup.seeds))
  }

  lemma {:induction false} PresetAfterOnePass(setup: Setup, rows: seq<Row>, s: Seed)
    requires s in setup.seeds
    ensures var once := Reconcile(setup, rows);
            var k := Find(once, KeyOf(s));
            && k <= |once|
            && (k < |once| <==> Find(rows, KeyOf(s)) >= |rows| || FindLegal(setup, rows, KeyOf(s)) < |rows|)
            && ((k < |once| && InStep(setup.reset, once[k], setup.seeds)) <==> EnoughFor(setup, rows, s))
  {
    var key := KeyOf(s);
    var after := SeedAll(setup.reset, rows, setup.seeds);
    Seeding(setup.reset, rows, setup.seeds);
    SeedingKeepsLegality(setup, rows);
    forall i | 0 <= i < |rows| ensures KeyOf(after[i].seed) == KeyOf(rows[i].seed) {
      SyncAllKeeps(setup.reset, rows[i], setup.seeds);
    }
    FirstAfterDeletion(setup, after, key);
    FindLegalIsFirst(setup, after, key);
    FindLegalIsFirst(setup, rows, key);
    FindIsFirst(rows, key);
    FindIsFirst(after, key);
    var l := FindLegal(setup, rows, key);
    hide InStep, Legal, SeedAll, IsPreset;
    if l < |rows| {
      assert FindLegal(setup, after, key) == l;
      InStepIff(setup.reset, rows[l], setup.seeds);
      InStepIff(setup.reset, after[l], setup.seeds);
      if l == Find(rows, key) {
        SyncAllSettles(setup.reset, rows[l], setup.seeds);
      } else {
        assert after[l] == rows[l];
      }
    } else if Find(rows, key) < |rows| {
      assert Find(after, key) == Find(rows, key);
      forall i | |rows| <= i < |after| ensures KeyOf(after[i].seed) != key {
        assert Find(after, KeyOf(after[i].seed)) == i;
      }
      assert FindLegal(setup, after, key) == |after|;
    } else {
      var k := Find(after, key);
      assert FindLegal(setup, after, key) == k;
      InStepIff(setup.reset, after[k], setup.seeds);
    }
  }

  /** A second pass changes nothing iff one pass was enough for every preset. */
  lemma {:induction false} OnePassIsEnoughIff(setup: Setup, rows: seq<Row>)
    ensures var once := Reconcile(setup, rows);
            Reconcile(setup, once) == once <==> forall s | s in setup.seeds :: EnoughFor(setup, rows, s)
  {
    var once := Reconcile(setup, rows);
    DeletionSplits(setup, SeedAll(setup.reset, rows, setup.seeds));
    SecondPassOnlySeeds(setup, once);
    SeedingFixedPoints(setup.reset, once, setup.seeds);
    forall s | s in setup.seeds
      ensures var k := Find(once, KeyOf(s));
              (k < |once| && InStep(setup.reset, once[k], setup.seeds)) <==> EnoughFor(setup, rows, s)
    {
      PresetAfterOnePass(setup, rows, s);
    }
    hide Reconcile, SeedAll, EnoughFor, InStep, Find;
  }

  /** In particular when no row matches a preset under a type where its provider is illegal. */
  lemma {:induction false} OnePassIsEnough(setup: Setup, rows: seq<Row>)
    requires forall i, s | 0 <= i < |rows| && s in setup.seeds ::
               KeyOf(rows[i].seed) == KeyOf(s) ==> IsLegal(setup, rows[i])
    ensures Reconcile(setup, Reconcile(setup, rows)) == Reconcile(setup, rows)
  {
    forall s | s in setup.seeds ensures EnoughFor(setup, rows, s) {
      FindIsFirst(rows, KeyOf(s));
      FindLegalIsFirst(setup, rows, KeyOf(s));
    }
    OnePassIsEnoughIff(setup, rows);
  }

  /** A preset is missing after one pass iff rows matched it and all of them were orphans. */
  lemma {:induction false} MissingAfterOnePassIff(setup: Setup, rows: seq<Row>, s: Seed)
    requires s in setup.seeds
    ensures (forall r | r in Reconcile(setup, rows) :: KeyOf(r.seed) != KeyOf(s)) <==>
            && (exists i :: 0 <= i < |rows| && KeyOf(rows[i].seed) == KeyOf(s))
            && (forall i | 0 <= i < |rows| && KeyOf(rows[i].seed) == KeyOf(s) :: !IsLegal(setup, rows[i]))
  {
    PresetAfterOnePass(setup, rows, s);
    FindIsFirst(Reconcile(setup, rows), KeyOf(s));
    FindIsFirst(rows, KeyOf(s));
    FindLegalIsFirst(setup, rows, KeyOf(s));
  }

  lemma {:induction false} SeedOnePreset(reset: bool, rows: seq<Row>, s: Seed)
    ensures SeedAll(reset, rows, [s]) == Upsert(reset, rows, s)
  {}

  lemma {:induction false} LegalOfOne(setup: Setup, row: Row)
    ensures Legal(setup, [row]) == if IsLegal(setup, row) then [row] else []
  {}

  /** One orphan under the wrong type is enough: the first pass leaves its preset missing, the second adds it. */
  lemma {:induction false} PresetLostByOnePass(s: Seed, kind: string, id: nat)
    requires kind != s.kind
    ensures var setup := Setup([s], map[], false);
            var once := Reconcile(setup, [Row(id, s.(kind := kind))]);
            once == [] && Reconcile(setup, once) == [Row(1, s)]
  {
    var setup, row := Setup([s], map[], false), Row(id, s.(kind := kind));
    var synced := SyncOne(false, row, s);
    SeedOnePreset(false, [row], s);
    SeedOnePreset(false, [], s);
    LegalOfOne(setup, synced);
    LegalOfOne(setup, Row(1, s));
    assert Upsert(false, [row], s) == [synced];
    assert s in setup.seeds;
    hide SeedAll, Legal;
  }

  /**
   The report of missing presets names, in order, exactly the rows that were added; an added row
   is its preset but for what later presets with the same key may have synced.
   */
  lemma {:induction false} MissingAreAdded(reset: bool, rows: seq<Row>, seeds: seq<Seed>)
    ensures var after, missing := SeedAll(reset, rows, seeds), Missing(reset, rows, seeds);
            && |after| == |rows| + |missing|
            && forall i | 0 <= i < |missing| ::
                 SameButSynced(Row(after[|rows| + i].id, missing[i]), after[|rows| + i])
  {
    if seeds == [] {
    } else {
      var init, last := seeds[..|seeds| - 1], seeds[|seeds| - 1];
      var before, after := SeedAll(reset, rows, init), SeedAll(reset, rows, seeds);
      MissingAreAdded(reset, rows, init);
      FindIsFirst(before, KeyOf(last));
      assert forall i | 0 <= i < |before| :: after[i].id == before[i].id && SameButSynced(before[i], after[i]);
      var missing := Missing(reset, rows, seeds);
      forall i | 0 <= i < |missing| ensures SameButSynced(Row(after[|rows| + i].id, missing[i]), after[|rows| + i]) {
        if i < |Missing(reset, rows, init)| {
          assert missing[i] == Missing(reset, rows, init)[i];
        }
      }
    }
  }

  predicate DistinctKeys(seeds: seq<Seed>) {
    forall i, j | 0 <= i < j < |seeds| :: KeyOf(seeds[i]) != KeyOf(seeds[j])
  }

  lemma {:induction false} OtherKeysUntouched(reset: bool, rows: seq<Row>, s: Seed, k: nat)
    requires k < |rows| && KeyOf(rows[k].seed) != KeyOf(s)
    ensures k < |Upsert(reset, rows, s)| && Upsert(reset, rows, s)[k] == rows[k]
  {
    FindIsFirst(rows, KeyOf(s));
  }

  /** An added row has the key of one of the presets so far. */
  lemma {:induction false} AddedKey(reset: bool, rows: seq<Row>, seeds: seq<Seed>, i: nat) returns (j: nat)
    requires i < |Missing(reset, rows, seeds)|
    ensures var after := SeedAll(reset, rows, seeds);
            |rows| + i < |after| && j < |seeds| && KeyOf(seeds[j]) == KeyOf(after[|rows| + i].seed)
  {
    var after := SeedAll(reset, rows, seeds);
    MissingAreAdded(reset, rows, seeds);
    Seeding(reset, rows, seeds);
    hide SeedAll, Missing, Find, SyncAll;
    assert IsPreset(seeds, after[|rows| + i]);
    var s :| s in seeds && KeyOf(s) == KeyOf(after[|rows| + i].seed);
    var l :| 0 <= l < |seeds| && seeds[l] == s;
    j := l;
  }

  /** Presets with distinct keys are added exactly as they are. */
  lemma {:induction false} AddedAsSpecified(reset: bool, rows: seq<Row>, seeds: seq<Seed>, i: nat)
    requires DistinctKeys(seeds) && i < |Missing(reset, rows, seeds)|
    ensures var after := SeedAll(reset, rows, seeds);
            |rows| + i < |after| && after[|rows| + i].seed == Missing(reset, rows, seeds)[i]
  {
    if seeds == [] {
    } else {
      var init, last := seeds[..|seeds| - 1], seeds[|seeds| - 1];
      var before := SeedAll(reset, rows, init);
      MissingAreAdded(reset, rows, init);
      if i < |Missing(reset, rows, init)| {
        AddedAsSpecified(reset, rows, init, i);
        var j := AddedKey(reset, rows, init, i);
        assert KeyOf(seeds[j]) != KeyOf(seeds[|seeds| - 1]);
        OtherKeysUntouched(reset, before, last, |rows| + i);
      }
      hide SyncOne, DistinctKeys;
    }
  }

  /** What the first row that matches presets takes over: a batch flag and, unless it has some, test symbols. */
  lemma {:induction false} FirstMatchTakesOver(reset: bool, rows: seq<Row>, seeds: seq<Seed>, i: nat)
    requires i < |rows| && Find(rows, KeyOf(rows[i].seed)) == i && LastMatch(seeds, KeyOf(rows[i].seed)).Some?
    ensures var after, key := SeedAll(reset, rows, seeds), KeyOf(rows[i].seed);
            var last := LastMatch(seeds, key).value;
            && i < |after|
            && after[i].seed == rows[i].seed.(
                 supportsBatch := last.supportsBatch,
                 testSymbols := if reset then last.testSymbols
                                else if rows[i].seed.testSymbols != [] then rows[i].seed.testSymbols
                                else FirstTests(seeds, key))
  {
    Seeding(reset, rows, seeds);
    SyncAllIs(reset, rows[i], seeds);
  }

  // ---- What is deleted and what survives ------------------------------------------------------------------------

  /** Some preset has this row's type and provider. */
  predicate IsOffered(setup: Setup, row: Row) {
    exists i :: 0 <= i < |setup.seeds| && setup.seeds[i].kind == row.seed.kind
                && setup.seeds[i].provider == row.seed.provider
  }

  /** The engine has this row's provider for its type. */
  predicate IsVendors(setup: Setup, row: Row) {
    row.seed.kind in setup.vendors && row.seed.provider in setup.vendors[row.seed.kind]
  }

  lemma {:induction false} OrphansAre(setup: Setup, rows: seq<Row>, r: Row)
    ensures r in Orphans(setup, rows) <==> r in rows && !IsLegal(setup, r)
  {
    if rows == [] {
    } else {
      OrphansAre(setup, rows[..|rows| - 1], r);
      assert rows == rows[..|rows| - 1] + [rows[|rows| - 1]];
    }
  }

  lemma {:induction false} LegalMeans(setup: Setup, row: Row)
    ensures IsLegal(setup, row) <==> IsOffered(setup, row) || IsVendors(setup, row)
  {
    if s :| s in setup.seeds && s.kind == row.seed.kind && s.provider == row.seed.provider {
      var i :| 0 <= i < |setup.seeds| && setup.seeds[i] == s;
    }
  }

  /**
   A row of the seeded table is deleted and reported iff no preset has its type and provider and
   the engine does not have its provider for its type; otherwise it is kept.
   */
  lemma {:induction false} DeletedIff(setup: Setup, rows: seq<Row>, r: Row)
    ensures var seeded := SeedAll(setup.reset, rows, setup.seeds);
            && (r in Orphans(setup, seeded) <==> r in seeded && !IsOffered(setup, r) && !IsVendors(setup, r))
            && (r in Reconcile(setup, rows) <==> r in seeded && (IsOffered(setup, r) || IsVendors(setup, r)))
  {
    var seeded := SeedAll(setup.reset, rows, setup.seeds);
    OrphansAre(setup, seeded, r);
    LegalRowsStay(setup, seeded, r);
    LegalMeans(setup, r);
  }

  /** A row with a provider the engine has for its type survives, all but its two synced fields as they were. */
  lemma {:induction false} VendorRowsSurvive(setup: Setup, rows: seq<Row>, i: nat)
    requires i < |rows| && IsVendors(setup, rows[i])
    ensures exists r :: r in Reconcile(setup, rows)
                        && r.id == rows[i].id
                        && r.seed == rows[i].seed.(supportsBatch := r.seed.supportsBatch, testSymbols := r.seed.testSymbols)
  {
    LegalMeans(setup, rows[i]);
    LegalRowsSurvive(setup, rows, i);
  }

  predicate DistinctIds(rows: seq<Row>) {
    forall i, j | 0 <= i < j < |rows| :: rows[i].id != rows[j].id
  }

  lemma {:induction false} UpsertKeepsIds(reset: bool, rows: seq<Row>, s: Seed)
    requires DistinctIds(rows)
    ensures DistinctIds(Upsert(reset, rows, s))
  {
    MaxIdIsMax(rows);
    FindIsFirst(rows, KeyOf(s));
    var after := Upsert(reset, rows, s);
    assert forall i | 0 <= i < |rows| :: after[i].id == rows[i].id;
  }

  /** Row ids stay distinct. */
  lemma {:induction false} SeedingKeepsIds(reset: bool, rows: seq<Row>, seeds: seq<Seed>)
    requires DistinctIds(rows)
    ensures DistinctIds(SeedAll(reset, rows, seeds))
  {
    if seeds == [] {
    } else {
      SeedingKeepsIds(reset, rows, seeds[..|seeds| - 1]);
      UpsertKeepsIds(reset, SeedAll(reset, rows, seeds[..|seeds| - 1]), seeds[|seeds| - 1]);
    }
  }

  lemma {:induction false} MaxIdIsMax(rows: seq<Row>)
    ensures forall i | 0 <= i < |rows| :: rows[i].id <= MaxId(rows)
  {
    if rows == [] {
    } else {
      MaxIdIsMax(rows[1..]);
      assert forall i | 0 < i < |rows| :: rows[i] == rows[1..][i - 1];
    }
  }

  lemma {:induction false} SeedSnoc(reset: bool, rows: seq<Row>, seeds: seq<Seed>, n: nat)
    requires n < |seeds|
    ensures var before := SeedAll(reset, rows, seeds[..n]);
            && SeedAll(reset, rows, seeds[..n + 1]) == Upsert(reset, before, seeds[n])
            && Missing(reset, rows, seeds[..n + 1])
               == Missing(reset, rows, seeds[..n]) + if Find(before, KeyOf(seeds[n])) < |before| then [] else [seeds[n]]
  {
    assert seeds[..n + 1][..n] == seeds[..n];
  }

  // ---- The table as the program updates it -----------------------------------------------------------------------------------

  class DataSourceTable {
    var rows: seq<Row>

    constructor (rows: seq<Row>)
      ensures this.rows == rows
    {
      this.rows := rows;
    }

    /** The query of the seeding loop: the first row with this name and provider. */
    method First(key: Key) returns (k: nat)
      ensures k == Find(rows, key)
    {
      k := 0;
      while k < |rows| && KeyOf(rows[k].seed) != key
        invariant 0 <= k <= |rows|
        invariant forall i | 0 <= i < k :: KeyOf(rows[i].seed) != key
      {
        k := k + 1;
      }
      FindIsFirst(rows, key);
    }

    /** The body of the seeding loop. */
    method SeedOne(reset: bool, s: Seed) returns (added: bool)
      modifies this
      ensures rows == Upsert(reset, old(rows), s)
      ensures added <==> Find(old(rows), KeyOf(s)) >= |old(rows)|
    {
      var k := First(KeyOf(s));
      if k < |rows| {
        var row := rows[k];
        if row.seed.supportsBatch != s.supportsBatch {
          row := row.(seed := row.seed.(supportsBatch := s.supportsBatch));
        }
        if reset {
          row := row.(seed := row.seed.(testSymbols := s.testSymbols));
        } else if row.seed.testSymbols == [] {
          row := row.(seed := row.seed.(testSymbols := s.testSymbols));
        }
        rows := rows[k := row];
        added := false;
      } else {
        rows := rows + [Row(MaxId(rows) + 1, s)];
        added := true;
      }
    }

    /** seed_data_sources: the presets it had to add are reported. */
    method SeedDataSources(setup: Setup) returns (missing: seq<Seed>)
      modifies this
      ensures rows == SeedAll(setup.reset, old(rows), setup.seeds)
      ensures missing == Missing(setup.reset, old(rows), setup.seeds)
    {
      missing := [];
      hide Upsert, Find;
      for n := 0 to |setup.seeds|
        invariant rows == SeedAll(setup.reset, old(rows), setup.seeds[..n])
        invariant missing == Missing(setup.reset, old(rows), setup.seeds[..n])
      {
        var s := setup.seeds[n];
        SeedSnoc(setup.reset, old(rows), setup.seeds, n);
        var added := SeedOne(setup.reset, s);
        if added {
          missing := missing + [s];
        }
      }
      assert setup.seeds[..|setup.seeds|] == setup.seeds;
    }

    /** The deletion loop. */
    static method DeleteOrphans(setup: Setup, all: seq<Row>) returns (kept: seq<Row>, deleted: seq<Row>)
      ensures kept == Legal(setup, all) && deleted == Orphans(setup, all)
    {
      kept, deleted := [], [];
      for n := 0 to |all|
        invariant kept == Legal(setup, all[..n]) && deleted == Orphans(setup, all[..n])
      {
        assert all[..n + 1][..n] == all[..n];
        if IsLegal(setup, all[n]) {
          kept := kept + [all[n]];
        } else {
          deleted := deleted + [all[n]];
        }
      }
      assert all[..|all|] == all;
    }

    /** reconcile_data_sources: seed, then delete what is illegal and report it. */
    method ReconcileDataSources(setup: Setup) returns (deleted: seq<Row>, missing: seq<Seed>)
      modifies this
      ensures rows == Reconcile(setup, old(rows))
      ensures deleted == Orphans(setup, SeedAll(setup.reset, old(rows), setup.seeds))
      ensures missing == Missing(setup.reset, old(rows), setup.seeds)
    {
      missing := SeedDataSources(setup);
      rows, deleted := DeleteOrphans(setup, rows);
    }
  }
}
