/**
 The opportunities page (frontend/src/pages/Opportunities.tsx): signals are grouped by
 instrument, every group is led by its best signal, and the groups are sorted by their leaders.

 Strings are compared character by character.
 */
module Signals {
  import opened Wrappers
  import opened Sorting
  import opened Text

  const DEFAULT_MARKET := "TW"

  /** The fields the comparison and the grouping read; an absent string is the empty one. */
  datatype Signal = Signal(id: int, symbol: string, market: string, instrumentId: string, strategyCode: string,
                           status: string, action: string, rankerVersion: string,
                           rankingValue: Option<real>, rankScore: Option<real>, score: Option<real>,
                           snapshotId: string, sourceCandidateId: Option<int>)

  // ---- The comparison --------------------------------------------------------------------------------

  function OrElse(a: string, b: string): string {
    if a != "" then a else b
  }

  predicate IsActive(x: Signal) {
    Lower(x.status) == "active"
  }

  function ActionPriority(x: Signal): nat {
    var key := Lower(x.action);
    if key == "buy" || key == "add" then 3 else if key == "hold" then 2 else if key == "watch" then 1 else 0
  }

  function VersionPriority(x: Signal): nat {
    if x.rankerVersion == "ranker-v2" then 0 else if x.rankerVersion == "candidate-score-v1" then 1 else 2
  }

  /** A rank, or the minus infinity of a signal without one. */
  datatype Rank = MinusInfinity | Finite(value: real)

  function ToRank(a: Option<real>): Rank {
    if a.Some? then Finite(a.value) else MinusInfinity
  }

  function RankValue(x: Signal): Rank {
    if x.rankerVersion == "ranker-v2" then ToRank(x.rankingValue) else ToRank(x.rankScore.Or(x.score))
  }

  predicate RankAbove(a: Rank, b: Rank) {
    a.Finite? && (b.MinusInfinity? || a.value > b.value)
  }

  function Identity(x: Signal): string {
    x.strategyCode + ":" + OrElse(x.instrumentId, x.symbol) + ":"
    + OrElse(x.snapshotId, "candidate:" + IntToString(x.sourceCandidateId.GetOr(x.id)))
  }

  /** a < b on strings */
  predicate TextBelow(a: string, b: string) {
    if b == "" then false
    else if a == "" then true
    else if a[0] != b[0] then a[0] < b[0]
    else TextBelow(a[1..], b[1..])
  }

  predicate ShouldReplacePrimary(next: Signal, current: Signal) {
    var activeDelta := (if IsActive(next) then 1 else 0) - (if IsActive(current) then 1 else 0);
    if activeDelta != 0 then activeDelta > 0
    else
      var actionDelta := ActionPriority(next) - ActionPriority(current);
      if actionDelta != 0 then actionDelta > 0
      else
        var versionDelta := VersionPriority(next) - VersionPriority(current);
        if versionDelta != 0 then versionDelta < 0
        else if RankValue(next) != RankValue(current) then RankAbove(RankValue(next), RankValue(current))
        else TextBelow(Identity(next), Identity(current))
  }

  lemma {:induction false} TextBelowIsTotal(a: string, b: string)
    ensures a == b || TextBelow(a, b) || TextBelow(b, a)
    ensures TextBelow(a, b) ==> !TextBelow(b, a)
    ensures !TextBelow(a, a)
  {
    if a == "" {
    } else {
      TextBelowIsTotal(a[1..], a[1..]);
      if b != "" && a[0] == b[0] {
        TextBelowIsTotal(a[1..], b[1..]);
        assert a == [a[0]] + a[1..] && b == [b[0]] + b[1..];
      }
    }
  }

  lemma {:induction false} TextBelowSplits(a: string, b: string, c: string)
    requires TextBelow(a, c)
    ensures TextBelow(a, b) || TextBelow(b, c)
  {
    if a != "" && b != "" && a[0] == b[0] && b[0] == c[0] {
      TextBelowSplits(a[1..], b[1..], c[1..]);
    }
  }

  /** Everything the comparison reads of a signal. */
  predicate SameKeys(a: Signal, b: Signal) {
    && IsActive(a) == IsActive(b) && ActionPriority(a) == ActionPriority(b)
    && VersionPriority(a) == VersionPriority(b) && RankValue(a) == RankValue(b) && Identity(a) == Identity(b)
  }

  lemma {:induction false} CompareTwo(a: Signal, b: Signal)
    ensures ShouldReplacePrimary(a, b) ==> !ShouldReplacePrimary(b, a)
    ensures !ShouldReplacePrimary(a, b) && !ShouldReplacePrimary(b, a) <==> SameKeys(a, b)
  {
    TextBelowIsTotal(Identity(a), Identity(b));
    hide Identity, ActionPriority, IsActive, VersionPriority, RankValue, TextBelow;
  }

  lemma {:induction false} CompareThree(a: Signal, b: Signal, c: Signal)
    requires ShouldReplacePrimary(a, c)
    ensures ShouldReplacePrimary(a, b) || ShouldReplacePrimary(b, c)
  {
    if TextBelow(Identity(a), Identity(c)) {
      TextBelowSplits(Identity(a), Identity(b), Identity(c));
    }
    hide Identity, ActionPriority, IsActive, VersionPriority, RankValue, TextBelow;
  }

  /** shouldReplacePrimary is a strict weak order, and only signals of one identity tie. */
  lemma {:induction false} ComparisonIsAnOrder()
    ensures StrictWeakOrder((a: Signal, b: Signal) => ShouldReplacePrimary(a, b))
    ensures forall a: Signal, b: Signal :: !ShouldReplacePrimary(a, b) && !ShouldReplacePrimary(b, a) ==> SameKeys(a, b)
  {
    forall a: Signal, b: Signal
      ensures ShouldReplacePrimary(a, b) ==> !ShouldReplacePrimary(b, a)
      ensures !ShouldReplacePrimary(a, b) && !ShouldReplacePrimary(b, a) ==> SameKeys(a, b)
    {
      CompareTwo(a, b);
    }
    forall a: Signal, b: Signal, c: Signal | ShouldReplacePrimary(a, c)
      ensures ShouldReplacePrimary(a, b) || ShouldReplacePrimary(b, c)
    {
      CompareThree(a, b, c);
    }
    hide ShouldReplacePrimary;
  }

  // ---- What the comparison prefers ---------------------------------------------------------------------

  predicate Says(text: string, words: seq<string>) {
    Lower(text) in words
  }

  /** One of the two says an action the other one does not, and says nothing that ranks lower. */
  predicate BetterAction(a: string, b: string) {
    || (Says(a, ["buy", "add"]) && !Says(b, ["buy", "add"]))
    || (Says(a, ["hold"]) && !Says(b, ["buy", "add", "hold"]))
    || (Says(a, ["watch"]) && !Says(b, ["buy", "add", "hold", "watch"]))
  }

  predicate BetterVersion(a: string, b: string) {
    || (a == "ranker-v2" && b != "ranker-v2")
    || (a == "candidate-score-v1" && b !in {"ranker-v2", "candidate-score-v1"})
  }

  /** The value a signal is ranked by: its ranking value under the newer ranker, else its rank score or its score. */
  predicate RankedBy(x: Signal, value: Option<real>) {
    if x.rankerVersion == "ranker-v2" then value == x.rankingValue
    else value == if x.rankScore.Some? then x.rankScore else x.score
  }

  predicate BetterValue(a: Option<real>, b: Option<real>) {
    a.Some? && (b.None? || a.value > b.value)
  }

  /**
   Active signals go before others; then buying or adding before holding, holding before watching,
   and watching before the rest; then the newer ranker; then the higher value, any value before
   none; and last the smaller identity.
   */
  lemma {:induction false} PreferredMeans(a: Signal, b: Signal, x: Option<real>, y: Option<real>)
    requires RankedBy(a, x) && RankedBy(b, y)
    ensures ShouldReplacePrimary(a, b) <==>
            var active, other := Says(a.status, ["active"]), Says(b.status, ["active"]);
            if active != other then active
            else if BetterAction(a.action, b.action) || BetterAction(b.action, a.action) then BetterAction(a.action, b.action)
            else if BetterVersion(a.rankerVersion, b.rankerVersion) || BetterVersion(b.rankerVersion, a.rankerVersion)
            then BetterVersion(a.rankerVersion, b.rankerVersion)
            else if x != y then BetterValue(x, y)
            else TextBelow(Identity(a), Identity(b))
  {
    hide Lower, Identity;
  }

  /** The order of strings: after a common prefix the first one ends, or has the smaller character. */
  lemma {:induction false} TextBelowMeans(a: string, b: string)
    ensures TextBelow(a, b) <==>
            exists n: nat :: n <= |a| && n < |b| && a[..n] == b[..n] && (n == |a| || a[n] < b[n])
  {
    if a == "" || b == "" {
      if b != "" {
        assert a[..0] == b[..0];
      }
    } else if a[0] != b[0] {
      assert a[..0] == b[..0];
      forall n: nat | 0 < n <= |a| && n < |b| ensures a[..n] != b[..n] {
        assert a[..n][0] == a[0];
        assert b[..n][0] == b[0];
      }
    } else {
      TextBelowMeans(a[1..], b[1..]);
      if n: nat :| n <= |a[1..]| && n < |b[1..]| && a[1..][..n] == b[1..][..n] && (n == |a[1..]| || a[1..][n] < b[1..][n]) {
        assert a[..n + 1] == [a[0]] + a[1..][..n] && b[..n + 1] == [b[0]] + b[1..][..n];
        assert n + 1 == |a| || a[n + 1] < b[n + 1];
      }
      if n: nat :| n <= |a| && n < |b| && a[..n] == b[..n] && (n == |a| || a[n] < b[n]) {
        assert n > 0;
        assert a[1..][..n - 1] == a[..n][1..] && b[1..][..n - 1] == b[..n][1..];
      }
    }
  }

  /** What an identity is made of: strategy, instrument or symbol, and snapshot or candidate. */
  lemma {:induction false} IdentityMeans(x: Signal)
    ensures var instrument := if x.instrumentId == "" then x.symbol else x.instrumentId;
            var candidate := if x.sourceCandidateId.Some? then x.sourceCandidateId.value else x.id;
            && (x.snapshotId != "" ==> Identity(x) == x.strategyCode + ":" + instrument + ":" + x.snapshotId)
            && (x.snapshotId == "" ==>
                  Identity(x) == x.strategyCode + ":" + instrument + ":" + ("candidate:" + IntToString(candidate)))
  {}

  /** Signals of one instrument on one market share a group; no market is Taiwan's. */
  lemma {:induction false} GroupKeyMeans(x: Signal)
    ensures GroupKey(x) == (if x.market == "" then "TW" else x.market) + ":"
                           + (if x.instrumentId == "" then x.symbol else x.instrumentId)
  {}

  // ---- Groups ------------------------------------------------------------------------------------------

  datatype Group = Group(key: string, primary: Signal, members: seq<Signal>)

  function GroupKey(x: Signal): string {
    OrElse(x.market, DEFAULT_MARKET) + ":" + OrElse(x.instrumentId, x.symbol)
  }

  /** The keys in the order in which they first appear: the order of a JavaScript Map. */
  function FirstKeys(items: seq<Signal>): seq<string> {
    if items == [] then []
    else
      var before, key := FirstKeys(items[..|items| - 1]), GroupKey(items[|items| - 1]);
      if key in before then before else before + [key]
  }

  function MembersOf(items: seq<Signal>, key: string): seq<Signal> {
    if items == [] then []
    else MembersOf(items[..|items| - 1], key) + if GroupKey(items[|items| - 1]) == key then [items[|items| - 1]] else []
  }

  /** The fold: a later member replaces the leader if it should. */
  function Leader(members: seq<Signal>): Signal
    requires members != []
  {
    var last := members[|members| - 1];
    if |members| == 1 then last
    else
      var before := Leader(members[..|members| - 1]);
      if ShouldReplacePrimary(last, before) then last else before
  }

  lemma {:induction false} KeysHaveMembers(items: seq<Signal>)
    ensures forall k | k in FirstKeys(items) :: MembersOf(items, k) != []
    ensures forall x | x in items :: GroupKey(x) in FirstKeys(items) && x in MembersOf(items, GroupKey(x))
    ensures forall i, j | 0 <= i < j < |FirstKeys(items)| :: FirstKeys(items)[i] != FirstKeys(items)[j]
    ensures forall k | k !in FirstKeys(items) :: MembersOf(items, k) == []
  {
    if items == [] {
    } else {
      KeysHaveMembers(items[..|items| - 1]);
      assert items == items[..|items| - 1] + [items[|items| - 1]];
    }
  }

  lemma {:induction false} MembersCount(items: seq<Signal>, key: string, x: Signal)
    ensures multiset(MembersOf(items, key))[x] == if GroupKey(x) == key then multiset(items)[x] else 0
  {
    if items == [] {
    } else {
      MembersCount(items[..|items| - 1], key, x);
      assert items == items[..|items| - 1] + [items[|items| - 1]];
    }
  }

  function GroupOf(items: seq<Signal>, key: string): Group
    requires MembersOf(items, key) != []
  {
    Group(key, Leader(MembersOf(items, key)), MembersOf(items, key))
  }

  function GroupsOf(items: seq<Signal>): seq<Group> {
    KeysHaveMembers(items);
    seq(|FirstKeys(items)|, i requires 0 <= i < |FirstKeys(items)| => GroupOf(items, FirstKeys(items)[i]))
  }

  predicate LeadsBefore(a: Group, b: Group) {
    ShouldReplacePrimary(a.primary, b.primary)
  }

  function Presented(items: seq<Signal>): seq<Group> {
    Sort((a: Group, b: Group) => LeadsBefore(a, b), GroupsOf(items))
  }

  lemma {:induction false} StillMaximal(x: Signal, before: Signal, last: Signal)
    requires !ShouldReplacePrimary(x, before) && ShouldReplacePrimary(last, before)
    ensures !ShouldReplacePrimary(x, last)
  {
    CompareTwo(last, before);
    if ShouldReplacePrimary(x, last) {
      CompareThree(x, before, last);
    }
  }

  /** The one-pass fold picks a member that no other member should replace. */
  lemma {:induction false} LeaderIsMaximal(members: seq<Signal>)
    requires members != []
    ensures Leader(members) in members
    ensures forall x | x in members :: !ShouldReplacePrimary(x, Leader(members))
  {
    var init, last := members[..|members| - 1], members[|members| - 1];
    assert members == init + [last];
    CompareTwo(last, last);
    hide ShouldReplacePrimary, SameKeys;
    if init == [] {
    } else {
      LeaderIsMaximal(init);
      var before := Leader(init);
      forall x | x in init ensures !ShouldReplacePrimary(x, Leader(members)) {
        if ShouldReplacePrimary(last, before) {
          StillMaximal(x, before, last);
        }
      }
    }
  }

  /** One more row changes only the group of its key. */
  lemma {:induction false} AddRow(items: seq<Signal>, row: Signal)
    ensures var all, key := items + [row], GroupKey(row);
            && FirstKeys(all) == (if key in FirstKeys(items) then FirstKeys(items) else FirstKeys(items) + [key])
            && (forall k | k != key :: MembersOf(all, k) == MembersOf(items, k))
            && MembersOf(all, key) == MembersOf(items, key) + [row]
            && (key in FirstKeys(items) <==> MembersOf(items, key) != [])
            && Leader(MembersOf(all, key))
               == (if MembersOf(items, key) == [] || ShouldReplacePrimary(row, Leader(MembersOf(items, key))) then row
                   else Leader(MembersOf(items, key)))
  {
    var all, key := items + [row], GroupKey(row);
    assert all[..|items|] == items;
    KeysHaveMembers(items);
    var before, after := MembersOf(items, key), MembersOf(all, key);
    assert after[..|before|] == before;
  }

  /** The grouping loop over a map that remembers the order of its keys, and the sort after it. */
  method GroupItems(items: seq<Signal>) returns (out: seq<Group>)
    ensures out == Presented(items)
  {
    var keys: seq<string> := [];
    var grouped: map<string, Group> := map[];
    hide FirstKeys, MembersOf, Leader, GroupKey, ShouldReplacePrimary;
    assert FirstKeys(items[..0]) == [] by { FirstKeysOfNothing(); }
    for n := 0 to |items|
      invariant keys == FirstKeys(items[..n])
      invariant forall k :: k in grouped <==> k in keys
      invariant forall k | k in keys :: MembersOf(items[..n], k) != [] && grouped[k] == GroupOf(items[..n], k)
    {
      var row := items[n];
      var key := GroupKey(row);
      AddRow(items[..n], row);
      assert items[..n + 1] == items[..n] + [row];
      if key !in grouped {
        grouped := grouped[key := Group(key, row, [row])];
        keys := keys + [key];
      } else {
        var prev := grouped[key];
        var primary := if ShouldReplacePrimary(row, prev.primary) then row else prev.primary;
        grouped := grouped[key := Group(key, primary, prev.members + [row])];
      }
    }
    assert items[..|items|] == items;
    out := [];
    for n := 0 to |keys|
      invariant |out| == n && forall i | 0 <= i < n :: out[i] == grouped[keys[i]]
    {
      out := out + [grouped[keys[n]]];
    }
    assert out == GroupsOf(items);
    out := Sort((a: Group, b: Group) => LeadsBefore(a, b), out);
  }

  lemma {:induction false} FirstKeysOfNothing()
    ensures FirstKeys([]) == []
  {}

  lemma {:induction false} GroupOrder()
    ensures StrictWeakOrder((a: Group, b: Group) => LeadsBefore(a, b))
  {
    ComparisonIsAnOrder();
    var less := (a: Signal, b: Signal) => ShouldReplacePrimary(a, b);
    assert forall a: Signal, b: Signal :: less(a, b) == ShouldReplacePrimary(a, b);
    forall a: Group, b: Group, c: Group | LeadsBefore(a, c) ensures LeadsBefore(a, b) || LeadsBefore(b, c) {
      CompareThree(a.primary, b.primary, c.primary);
    }
    forall a: Group, b: Group | LeadsBefore(a, b) ensures !LeadsBefore(b, a) {
      CompareTwo(a.primary, b.primary);
    }
    hide ShouldReplacePrimary;
  }

  ghost predicate IsGroupOf(items: seq<Signal>, g: Group) {
    && (forall x :: multiset(g.members)[x] == if GroupKey(x) == g.key then multiset(items)[x] else 0)
    && g.primary in g.members
    && (forall x | x in g.members :: !ShouldReplacePrimary(x, g.primary))
  }

  lemma {:induction false} GroupsHold(items: seq<Signal>)
    ensures forall g | g in GroupsOf(items) :: IsGroupOf(items, g)
    ensures forall x | x in items :: exists g :: g in GroupsOf(items) && g.key == GroupKey(x)
  {
    hide ShouldReplacePrimary, MembersOf, Leader, FirstKeys, GroupKey;
    KeysHaveMembers(items);
    var keys, groups := FirstKeys(items), GroupsOf(items);
    forall g | g in groups ensures IsGroupOf(items, g) {
      LeaderIsMaximal(g.members);
      forall x ensures multiset(g.members)[x] == if GroupKey(x) == g.key then multiset(items)[x] else 0 {
        MembersCount(items, g.key, x);
      }
    }
    forall x | x in items ensures exists g :: g in groups && g.key == GroupKey(x) {
      var i :| 0 <= i < |keys| && keys[i] == GroupKey(x);
      assert groups[i] in groups;
    }
  }

  /**
   What the page shows: every signal is in exactly the group of its key, with its multiplicity;
   every group is led by a member no other member should replace; and no group comes before one
   whose leader should replace its own.
   */
  lemma {:induction false} PresentedGroups(items: seq<Signal>)
    ensures var out := Presented(items);
            && (forall g | g in out :: IsGroupOf(items, g))
            && (forall x | x in items :: exists g :: g in out && g.key == GroupKey(x))
            && (forall i, j | 0 <= i < j < |out| :: !ShouldReplacePrimary(out[j].primary, out[i].primary))
  {
    var less := (a: Group, b: Group) => LeadsBefore(a, b);
    var groups, out := GroupsOf(items), Presented(items);
    GroupOrder();
    SortSorts(less, groups);
    SortPermutes(less, groups);
    GroupsHold(items);
    hide IsGroupOf, GroupsOf, GroupKey, ShouldReplacePrimary;
    assert forall g :: g in out <==> g in multiset(groups);
    forall x | x in items ensures exists g :: g in out && g.key == GroupKey(x) {
      var g :| g in groups && g.key == GroupKey(x);
      assert g in out;
    }
    forall i, j | 0 <= i < j < |out| ensures !ShouldReplacePrimary(out[j].primary, out[i].primary) {
      assert !less(out[j], out[i]);
    }
  }

  // ---- Arrival order --------------------------------------------------------------------------------------

  /** A group without the order of its members. */
  datatype Headline = Headline(key: string, primary: Signal)

  predicate HeadBefore(a: Headline, b: Headline) {
    ShouldReplacePrimary(a.primary, b.primary)
  }

  function HeadOf(g: Group): Headline {
    Headline(g.key, g.primary)
  }

  function Heads(groups: seq<Group>): seq<Headline> {
    seq(|groups|, i requires 0 <= i < |groups| => HeadOf(groups[i]))
  }

  predicate DistinctIdentities(items: seq<Signal>) {
    forall x, y | x in items && y in items :: Identity(x) == Identity(y) ==> x == y
  }

  lemma {:induction false} HeadsOfInsert(g: Group, s: seq<Group>)
    ensures Heads(Insert((a: Group, b: Group) => LeadsBefore(a, b), g, s))
            == Insert((a: Headline, b: Headline) => HeadBefore(a, b), HeadOf(g), Heads(s))
  {
    if s == [] {
    } else {
      HeadsOfInsert(g, s[1..]);
      assert Heads(s)[1..] == Heads(s[1..]);
      assert Heads([s[0]]) == [HeadOf(s[0])];
    }
  }

  /** Sorting the groups sorts their headlines. */
  lemma {:induction false} HeadsOfSort(s: seq<Group>)
    ensures Heads(Sort((a: Group, b: Group) => LeadsBefore(a, b), s))
            == Sort((a: Headline, b: Headline) => HeadBefore(a, b), Heads(s))
  {
    if s == [] {
    } else {
      HeadsOfSort(s[1..]);
      assert Heads(s)[1..] == Heads(s[1..]);
      HeadsOfInsert(s[0], Sort((a: Group, b: Group) => LeadsBefore(a, b), s[1..]));
    }
  }

  /** Without two signals of one identity the leader of a group does not depend on their order. */
  lemma {:induction false} LeaderIsUnique(a: seq<Signal>, b: seq<Signal>)
    requires a != [] && b != [] && multiset(a) == multiset(b) && DistinctIdentities(a)
    ensures Leader(a) == Leader(b)
  {
    LeaderIsMaximal(a);
    LeaderIsMaximal(b);
    assert Leader(a) in multiset(b) && Leader(b) in multiset(a);
    CompareTwo(Leader(a), Leader(b));
  }

  lemma {:induction false} DistinctCount<T>(s: seq<T>, x: T)
    requires forall i, j | 0 <= i < j < |s| :: s[i] != s[j]
    ensures multiset(s)[x] == if x in s then 1 else 0
  {
    if s == [] {
    } else {
      assert s == [s[0]] + s[1..];
      DistinctCount(s[1..], x);
    }
  }

  lemma {:induction false} SameGroups(a: seq<Signal>, b: seq<Signal>)
    requires multiset(a) == multiset(b) && DistinctIdentities(a)
    ensures multiset(Heads(GroupsOf(a))) == multiset(Heads(GroupsOf(b)))
  {
    forall h ensures multiset(Heads(GroupsOf(a)))[h] == multiset(Heads(GroupsOf(b)))[h] {
      HeadsOfItems(a, h);
      HeadsOfItems(b, h);
      MembersPermute(a, b, h.key);
      if MembersOf(a, h.key) != [] {
        forall x | x in MembersOf(a, h.key) ensures x in a {
          MembersCount(a, h.key, x);
          assert x in multiset(MembersOf(a, h.key));
        }
        LeaderIsUnique(MembersOf(a, h.key), MembersOf(b, h.key));
      }
    }
  }

  lemma {:induction false} MembersPermute(a: seq<Signal>, b: seq<Signal>, key: string)
    requires multiset(a) == multiset(b)
    ensures multiset(MembersOf(a, key)) == multiset(MembersOf(b, key))
    ensures MembersOf(a, key) == [] <==> MembersOf(b, key) == []
  {
    forall x ensures multiset(MembersOf(a, key))[x] == multiset(MembersOf(b, key))[x] {
      MembersCount(a, key, x);
      MembersCount(b, key, x);
    }
    hide MembersOf;
    assert multiset(MembersOf(a, key)) == multiset(MembersOf(b, key));
    SameLength(MembersOf(a, key), MembersOf(b, key));
  }

  lemma {:induction false} SameLength<T>(s: seq<T>, t: seq<T>)
    requires multiset(s) == multiset(t)
    ensures |s| == |t|
  {
    assert |multiset(s)| == |multiset(t)|;
  }

  /** A headline occurs once iff it names a key that occurs together with that key's leader. */
  lemma {:induction false} HeadsOfItems(items: seq<Signal>, h: Headline)
    ensures multiset(Heads(GroupsOf(items)))[h]
            == if MembersOf(items, h.key) != [] && Leader(MembersOf(items, h.key)) == h.primary then 1 else 0
  {
    var heads, keys := Heads(GroupsOf(items)), FirstKeys(items);
    KeysHaveMembers(items);
    assert forall i | 0 <= i < |heads| ::
        heads[i] == Headline(keys[i], Leader(MembersOf(items, keys[i])));
    DistinctCount(heads, h);
    if MembersOf(items, h.key) != [] {
      var i :| 0 <= i < |keys| && keys[i] == h.key;
      assert heads[i].key == h.key;
    }
    hide Leader, MembersOf, FirstKeys;
  }

  /**
   What the page shows does not depend on the order in which the signals arrive: the same
   groups with the same leaders in the same order, as long as no two signals share an identity.
   */
  lemma {:induction false} ArrivalOrderDoesNotMatter(a: seq<Signal>, b: seq<Signal>)
    requires multiset(a) == multiset(b) && DistinctIdentities(a)
    ensures Heads(Presented(a)) == Heads(Presented(b))
  {
    var less := (x: Headline, y: Headline) => HeadBefore(x, y);
    var s, t := Heads(GroupsOf(a)), Heads(GroupsOf(b));
    HeadsOfSort(GroupsOf(a));
    HeadsOfSort(GroupsOf(b));
    SameGroups(a, b);
    HeadlineOrder();
    SortSorts(less, s);
    SortSorts(less, t);
    SortPermutes(less, s);
    SortPermutes(less, t);
    forall x, y | x in Sort(less, s) && y in Sort(less, s) ensures x == y || less(x, y) || less(y, x) {
      assert x in multiset(s) && y in multiset(s);
      HeadlinesCompare(a, x, y);
    }
    SortedIsUnique(less, Sort(less, s), Sort(less, t));
  }

  lemma {:induction false} HeadlineOrder()
    ensures StrictWeakOrder((a: Headline, b: Headline) => HeadBefore(a, b))
  {
    forall a: Headline, b: Headline, c: Headline | HeadBefore(a, c) ensures HeadBefore(a, b) || HeadBefore(b, c) {
      CompareThree(a.primary, b.primary, c.primary);
    }
    forall a: Headline, b: Headline | HeadBefore(a, b) ensures !HeadBefore(b, a) {
      CompareTwo(a.primary, b.primary);
    }
    hide ShouldReplacePrimary;
  }

  lemma {:induction false} HeadlinesCompare(items: seq<Signal>, x: Headline, y: Headline)
    requires DistinctIdentities(items) && x in Heads(GroupsOf(items)) && y in Heads(GroupsOf(items))
    ensures x == y || HeadBefore(x, y) || HeadBefore(y, x)
  {
    HeadlineFacts(items, x);
    HeadlineFacts(items, y);
    CompareTwo(x.primary, y.primary);
    hide ShouldReplacePrimary, Identity, GroupKey;
  }

  lemma {:induction false} HeadlineFacts(items: seq<Signal>, h: Headline)
    requires h in Heads(GroupsOf(items))
    ensures h.primary in items && GroupKey(h.primary) == h.key
  {
    assert h in multiset(Heads(GroupsOf(items)));
    HeadsOfItems(items, h);
    LeaderIsMaximal(MembersOf(items, h.key));
    MembersCount(items, h.key, h.primary);
    assert h.primary in multiset(MembersOf(items, h.key));
    assert h.primary in multiset(items);
  }
}
