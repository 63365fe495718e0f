/** The skill comparison views (main.py:231-301): the records of all users'
    skill tables, the all-skills top-5 views by level group, the
    single-skill per-user totals and the (skill, level) by user heatmap. */
module SkillViews {
  import opened Levels
  import opened Skills
  import opened Sorting
  import opened Frames

  /** `pd.concat(skill_dfs)`: the users' skill tables one after another. */
  function AllSkills(tables: seq<seq<SkillRecord>>): (r: seq<SkillRecord>)
    ensures forall i, x :: 0 <= i < |tables| && x in tables[i] ==> x in r
    ensures forall x :: x in r ==> exists i :: 0 <= i < |tables| && x in tables[i]
  {
    if tables == [] then []
    else
      var n := |tables| - 1;
      var init := AllSkills(tables[..n]);
      assert forall i :: 0 <= i < n ==> tables[..n][i] == tables[i];
      init + tables[n]
  }

  /** Concatenating the tables of two groups of users. */
  lemma {:induction false} AllSkillsAppend(a: seq<seq<SkillRecord>>, b: seq<seq<SkillRecord>>)
    ensures AllSkills(a + b) == AllSkills(a) + AllSkills(b)
  {
    if b == [] {
      assert a + b == a;
    } else {
      var n := |b| - 1;
      assert (a + b)[..|a + b| - 1] == a + b[..n];
      AllSkillsAppend(a, b[..n]);
    }
  }

  /** Every copy of every table's records is kept: the concatenation holds
      each record as often as all the tables together. */
  lemma {:induction false} AllSkillsCopies(tables: seq<seq<SkillRecord>>, t: seq<SkillRecord>)
    ensures AllSkills(tables + [t]) == AllSkills(tables) + t
    ensures multiset(AllSkills(tables + [t])) == multiset(AllSkills(tables)) + multiset(t)
  {
    assert (tables + [t])[..|tables|] == tables;
  }

  /** The pivot and heatmap sums over all users' tables are the sums over
      the tables taken one at a time. */
  lemma AllSkillsSums(tables: seq<seq<SkillRecord>>, t: seq<SkillRecord>, skill: string, level: Level, user: string)
    ensures CellSum(AllSkills(tables + [t]), skill, level, user)
         == CellSum(AllSkills(tables), skill, level, user) + CellSum(t, skill, level, user)
    ensures SkillSum(AllSkills(tables + [t]), skill, user)
         == SkillSum(AllSkills(tables), skill, user) + SkillSum(t, skill, user)
  {
    AllSkillsCopies(tables, t);
    CellSumAppend(AllSkills(tables), t, skill, level, user);
    SkillSumAppend(AllSkills(tables), t, skill, user);
  }

  /** Total problems solved over a sequence of records. */
  function Solved(rs: seq<SkillRecord>): int
  {
    if rs == [] then 0 else Solved(rs[..|rs| - 1]) + rs[|rs| - 1].solved
  }

  lemma {:induction false} SolvedAppend(a: seq<SkillRecord>, b: seq<SkillRecord>)
    ensures Solved(a + b) == Solved(a) + Solved(b)
  {
    if b == [] {
      assert a + b == a;
    } else {
      var n := |b| - 1;
      assert (a + b)[..|a + b| - 1] == a + b[..n];
      SolvedAppend(a, b[..n]);
    }
  }

  /** The total does not depend on the order of the records. */
  lemma {:induction false} SolvedPermutation(a: seq<SkillRecord>, b: seq<SkillRecord>)
    requires multiset(a) == multiset(b)
    ensures Solved(a) == Solved(b)
    decreases |a|
  {
    if a == [] {
      assert |b| == |multiset(b)| == 0;
    } else {
      var n := |a| - 1;
      var x := a[n];
      assert a == a[..n] + [x];
      assert x in multiset(b);
      var k :| 0 <= k < |b| && b[k] == x;
      var b' := b[..k] + b[k + 1..];
      assert b == b[..k] + [x] + b[k + 1..];
      assert multiset(a) == multiset(a[..n]) + multiset{x};
      assert multiset(b) == multiset(b[..k]) + multiset{x} + multiset(b[k + 1..]);
      assert multiset(b') == multiset(b[..k]) + multiset(b[k + 1..]);
      assert multiset(a[..n]) == multiset(a) - multiset{x};
      assert multiset(b') == multiset(b) - multiset{x};
      SolvedPermutation(a[..n], b');
      SolvedAppend(b[..k] + [x], b[k + 1..]);
      SolvedAppend(b[..k], [x]);
      SolvedAppend(b[..k], b[k + 1..]);
      assert Solved([x]) == x.solved by {
        assert [x][..0] == [];
      }
    }
  }

  // ---------------------------------------------------------------------
  // All-skills mode (main.py:249-266)

  function IsAdvanced(r: SkillRecord): bool {
    r.level == Advanced
  }

  function IsOther(r: SkillRecord): bool {
    r.level == Intermediate || r.level == Fundamental
  }

  /** The first five records of the level-sorted table that satisfy `keep`. */
  function TopFive(filtered: seq<SkillRecord>, keep: SkillRecord -> bool): seq<SkillRecord> {
    Take(Filter(SortSkills(filtered), keep), 5)
  }

  /** A top-5 view shows at most five records of the chosen group, drawn
      from the selection, in level-sorted order. */
  lemma TopFiveFacts(filtered: seq<SkillRecord>, keep: SkillRecord -> bool)
    ensures |TopFive(filtered, keep)| <= 5
    ensures |TopFive(filtered, keep)| ==
              if |Filter(SortSkills(filtered), keep)| <= 5 then |Filter(SortSkills(filtered), keep)| else 5
    ensures forall x :: x in TopFive(filtered, keep) ==> keep(x) && x in filtered
    ensures TopFive(filtered, keep) == Filter(SortSkills(filtered), keep)[..|TopFive(filtered, keep)|]
    ensures forall i, j :: 0 <= i < j < |TopFive(filtered, keep)| ==>
              SkillBefore(TopFive(filtered, keep)[i], TopFive(filtered, keep)[j])
  {
    var s := SortSkills(filtered);
    var f := Filter(s, keep);
    assert forall i, j :: 0 <= i < j < |s| ==> SkillBefore(s[i], s[j]);
    FilterKeepsOrder(s, keep, SkillBefore);
    TakeOrdered(f, 5, SkillBefore);
    forall x | x in Take(f, 5) ensures keep(x) && x in filtered {
      assert x in multiset(s);
    }
  }

  /** `filtered_skills[filtered_skills["Level"] == "Advanced"].head(5)` after
      the level sort (main.py:258): at most five Advanced records, a prefix of
      the sorted Advanced records, most problems solved first. */
  function AdvancedView(filtered: seq<SkillRecord>): (v: seq<SkillRecord>)
    ensures |v| <= 5
    ensures forall x :: x in v ==> x.level == Advanced && x in filtered
    ensures |v| <= |Filter(SortSkills(filtered), IsAdvanced)|
    ensures |v| == if |Filter(SortSkills(filtered), IsAdvanced)| <= 5 then |Filter(SortSkills(filtered), IsAdvanced)| else 5
    ensures v == Filter(SortSkills(filtered), IsAdvanced)[..|v|]
    ensures forall i, j :: 0 <= i < j < |v| ==> v[i].solved >= v[j].solved
  {
    TopFiveFacts(filtered, IsAdvanced);
    TopFive(filtered, IsAdvanced)
  }

  /** The Intermediate/Fundamental view after the level sort (main.py:264):
      at most five such records, a prefix of the sorted ones, Intermediate
      before Fundamental. */
  function OtherView(filtered: seq<SkillRecord>): (v: seq<SkillRecord>)
    ensures |v| <= 5
    ensures forall x :: x in v ==> x.level != Advanced && x in filtered
    ensures |v| <= |Filter(SortSkills(filtered), IsOther)|
    ensures |v| == if |Filter(SortSkills(filtered), IsOther)| <= 5 then |Filter(SortSkills(filtered), IsOther)| else 5
    ensures v == Filter(SortSkills(filtered), IsOther)[..|v|]
    ensures forall i, j :: 0 <= i < j < |v| ==> SkillBefore(v[i], v[j])
  {
    TopFiveFacts(filtered, IsOther);
    TopFive(filtered, IsOther)
  }


  /** A record left out of a top-5 view is outranked by all five shown. */
  lemma TopOfSorted(filtered: seq<SkillRecord>, keep: SkillRecord -> bool, x: SkillRecord)
    requires x in filtered && keep(x)
    requires x !in TopFive(filtered, keep)
    ensures |TopFive(filtered, keep)| == 5
    ensures forall y :: y in TopFive(filtered, keep) ==> SkillBefore(y, x)
  {
    var s := SortSkills(filtered);
    var f := Filter(s, keep);
    assert x in multiset(s);
    FilterCount(s, keep, x);
    assert x in multiset(f);
    FilterKeepsOrder(s, keep, SkillBefore);
    TakeLeavesLater(f, 5, SkillBefore, x);
  }

  /** Every Advanced record missing from the Advanced view is outranked by
      all five records the view shows. */
  lemma AdvancedViewTop(filtered: seq<SkillRecord>, x: SkillRecord)
    requires x in filtered && x.level == Advanced && x !in AdvancedView(filtered)
    ensures |AdvancedView(filtered)| == 5
    ensures forall y :: y in AdvancedView(filtered) ==> y.solved >= x.solved
  {
    TopOfSorted(filtered, IsAdvanced, x);
  }

  /** Every Intermediate or Fundamental record missing from the other view
      is outranked by all five records that view shows. */
  lemma OtherViewTop(filtered: seq<SkillRecord>, x: SkillRecord)
    requires x in filtered && x.level != Advanced && x !in OtherView(filtered)
    ensures |OtherView(filtered)| == 5
    ensures forall y :: y in OtherView(filtered) ==> SkillBefore(y, x)
  {
    TopOfSorted(filtered, IsOther, x);
  }

  // ---------------------------------------------------------------------
  // Single-skill mode (main.py:269-274)

  function SkillUserMatch(skill: string, user: string): SkillRecord -> bool {
    (r: SkillRecord) => r.skill == skill && r.username == user
  }

  /** Problems solved by `user` on `skill`, summed over all their records. */
  function SkillSum(all: seq<SkillRecord>, skill: string, user: string): int {
    Solved(Filter(all, SkillUserMatch(skill, user)))
  }

  function Username(r: SkillRecord): string {
    r.username
  }

  function SkillFilter(skill: string): SkillRecord -> bool {
    (r: SkillRecord) => r.skill == skill
  }

  /** Pivot order: the per-user total, largest first. */
  function TotalDesc(e: (string, int)): (int, int) {
    (-e.1, 0)
  }

  /** The users with a record of `skill`, each once, in order of first appearance. */
  function PivotUsers(all: seq<SkillRecord>, skill: string): (users: seq<string>)
    ensures forall i, j :: 0 <= i < j < |users| ==> users[i] != users[j]
    ensures forall u :: u in users ==> exists r :: r in all && r.skill == skill && r.username == u
    ensures forall r :: r in all && r.skill == skill ==> r.username in users
  {
    var picked := Filter(all, SkillFilter(skill));
    var users := Unique(Column(picked, Username));
    forall u | u in users ensures exists r :: r in all && r.skill == skill && r.username == u {
      var k :| 0 <= k < |picked| && Column(picked, Username)[k] == u;
      assert picked[k] in picked;
    }
    forall r | r in all && r.skill == skill ensures r.username in users {
      FilterCount(all, SkillFilter(skill), r);
      assert r in multiset(picked);
      var k :| 0 <= k < |picked| && picked[k] == r;
      assert Column(picked, Username)[k] == r.username;
    }
    users
  }

  /** Each user paired with their total for `skill`, in the users' order. */
  function Totals(all: seq<SkillRecord>, skill: string, users: seq<string>): (totals: seq<(string, int)>)
    ensures forall e :: e in totals ==> e.0 in users && e.1 == SkillSum(all, skill, e.0)
    ensures forall u :: u in users ==> (u, SkillSum(all, skill, u)) in totals
    ensures |totals| == |users|
    ensures (forall i, j :: 0 <= i < j < |users| ==> users[i] != users[j]) ==>
              forall i, j :: 0 <= i < j < |totals| ==> totals[i] != totals[j]
  {
    var totals := seq(|users|, i requires 0 <= i < |users| => (users[i], SkillSum(all, skill, users[i])));
    forall e | e in totals ensures e.0 in users && e.1 == SkillSum(all, skill, e.0) {
      var m :| 0 <= m < |totals| && totals[m] == e;
    }
    forall u | u in users ensures (u, SkillSum(all, skill, u)) in totals {
      var m :| 0 <= m < |users| && users[m] == u;
      assert totals[m] == (u, SkillSum(all, skill, u));
    }
    totals
  }

  /** The single-skill pivot: one entry per user with a record of `skill`,
      holding that user's total, sorted by total, most first. */
  function SkillPivot(all: seq<SkillRecord>, skill: string): (t: seq<(string, int)>)
    ensures forall i :: 0 <= i < |t| ==> t[i].1 == SkillSum(all, skill, t[i].0)
    ensures forall i, j :: 0 <= i < j < |t| ==> t[i].1 >= t[j].1
    ensures forall i :: 0 <= i < |t| ==> t[i].0 in PivotUsers(all, skill)
    ensures forall u :: u in PivotUsers(all, skill) ==> exists i :: 0 <= i < |t| && t[i].0 == u
    ensures |t| == |PivotUsers(all, skill)|
    ensures forall i, j :: 0 <= i < j < |t| ==> t[i].0 != t[j].0
  {
    var t := SortBy(Totals(all, skill, PivotUsers(all, skill)), TotalDesc);
    PivotFacts(all, skill, t);
    t
  }

  /** What sorting the per-user totals yields: each user's total exactly
      once, largest first. */
  lemma PivotFacts(all: seq<SkillRecord>, skill: string, t: seq<(string, int)>)
    requires t == SortBy(Totals(all, skill, PivotUsers(all, skill)), TotalDesc)
    ensures forall i :: 0 <= i < |t| ==> t[i].1 == SkillSum(all, skill, t[i].0)
    ensures forall i, j :: 0 <= i < j < |t| ==> t[i].1 >= t[j].1
    ensures forall i :: 0 <= i < |t| ==> t[i].0 in PivotUsers(all, skill)
    ensures forall u :: u in PivotUsers(all, skill) ==> exists i :: 0 <= i < |t| && t[i].0 == u
    ensures |t| == |PivotUsers(all, skill)|
    ensures forall i, j :: 0 <= i < j < |t| ==> t[i].0 != t[j].0
  {
    var users := PivotUsers(all, skill);
    var totals := Totals(all, skill, users);
    PivotEntries(all, skill, users, totals, t);
    PivotOrder(t);
  }

  /** Sorting the totals keeps exactly the (user, total) entries, each once. */
  lemma PivotEntries(all: seq<SkillRecord>, skill: string, users: seq<string>,
                     totals: seq<(string, int)>, t: seq<(string, int)>)
    requires multiset(t) == multiset(totals)
    requires forall e :: e in totals ==> e.0 in users && e.1 == SkillSum(all, skill, e.0)
    requires forall u :: u in users ==> (u, SkillSum(all, skill, u)) in totals
    requires forall i, j :: 0 <= i < j < |totals| ==> totals[i] != totals[j]
    requires |totals| == |users|
    ensures |t| == |users|
    ensures forall i :: 0 <= i < |t| ==> t[i].1 == SkillSum(all, skill, t[i].0) && t[i].0 in users
    ensures forall u :: u in users ==> exists i :: 0 <= i < |t| && t[i].0 == u
    ensures forall i, j :: 0 <= i < j < |t| ==> t[i].0 != t[j].0
  {
    forall i | 0 <= i < |t| ensures t[i].1 == SkillSum(all, skill, t[i].0) && t[i].0 in users {
      assert t[i] in multiset(totals);
    }
    forall u | u in users ensures exists i :: 0 <= i < |t| && t[i].0 == u {
      var e := (u, SkillSum(all, skill, u));
      assert e in multiset(t);
      var i :| 0 <= i < |t| && t[i] == e;
    }
    DistinctPermutation(totals, t);
    assert |t| == |multiset(t)| == |totals|;
  }

  /** Sorted by `TotalDesc`, the totals never increase. */
  lemma PivotOrder(t: seq<(string, int)>)
    requires SortedBy(t, TotalDesc)
    ensures forall i, j :: 0 <= i < j < |t| ==> t[i].1 >= t[j].1
  {
    forall i, j | 0 <= i < j < |t| ensures t[i].1 >= t[j].1 {
      assert KeyLe(TotalDesc(t[i]), TotalDesc(t[j]));
    }
  }

  // ---------------------------------------------------------------------
  // Heatmap (main.py:292-301)

  /** One heatmap row: a (skill, level) pair and a cell per user. */
  datatype HeatRow = HeatRow(skill: string, level: Level, cells: map<string, int>)

  function CellMatch(skill: string, level: Level, user: string): SkillRecord -> bool {
    (r: SkillRecord) => r.skill == skill && r.level == level && r.username == user
  }

  /** The pivot cell for (skill, level, user): the sum over matching records. */
  function CellSum(all: seq<SkillRecord>, skill: string, level: Level, user: string): int {
    Solved(Filter(all, CellMatch(skill, level, user)))
  }

  function SkillLevel(r: SkillRecord): (string, Level) {
    (r.skill, r.level)
  }

  function HeatKey(r: HeatRow): (int, int) {
    (Rank(r.level), 0)
  }

  /** The (skill, level) pairs that occur, each once. */
  function HeatPairs(all: seq<SkillRecord>): (pairs: seq<(string, Level)>)
    ensures forall i, j :: 0 <= i < j < |pairs| ==> pairs[i] != pairs[j]
    ensures forall p :: p in pairs ==> exists r :: r in all && r.skill == p.0 && r.level == p.1
    ensures forall r :: r in all ==> (r.skill, r.level) in pairs
  {
    var pairs := Unique(Column(all, SkillLevel));
    forall p | p in pairs ensures exists r :: r in all && r.skill == p.0 && r.level == p.1 {
      var k :| 0 <= k < |all| && Column(all, SkillLevel)[k] == p;
      assert all[k] in all;
    }
    forall r | r in all ensures (r.skill, r.level) in pairs {
      var k :| 0 <= k < |all| && all[k] == r;
      assert Column(all, SkillLevel)[k] in Column(all, SkillLevel);
    }
    pairs
  }

  /** The users with any skill record: the heatmap's columns. */
  function Columns(all: seq<SkillRecord>): set<string> {
    set r | r in all :: r.username
  }

  /** A heatmap row's label: its (skill, level) pair. */
  function Label(e: HeatRow): (string, Level) {
    (e.skill, e.level)
  }

  /** A row's cells: one per column, each the sum over the matching records. */
  predicate CellsAreSums(all: seq<SkillRecord>, e: HeatRow) {
    e.cells.Keys == Columns(all) &&
    forall u :: u in e.cells ==> e.cells[u] == CellSum(all, e.skill, e.level, u)
  }

  /** The heatmap rows before ordering, one per (skill, level) pair. */
  function HeatRows(all: seq<SkillRecord>): (rows: seq<HeatRow>)
    ensures Column(rows, Label) == HeatPairs(all)
    ensures forall e :: e in rows ==> CellsAreSums(all, e)
  {
    var pairs := HeatPairs(all);
    var rows := seq(|pairs|, i requires 0 <= i < |pairs| =>
                  HeatRow(pairs[i].0, pairs[i].1, map u | u in Columns(all) :: CellSum(all, pairs[i].0, pairs[i].1, u)));
    assert Column(rows, Label) == pairs;
    rows
  }

  /** The heatmap matrix (main.py:293-301): one row per (skill, level) pair
      that occurs, one column per user with any record, each cell the sum
      over the matching records, rows in level order. */
  function Heatmap(all: seq<SkillRecord>): (h: seq<HeatRow>)
    ensures forall i, j :: 0 <= i < j < |h| ==> Rank(h[i].level) <= Rank(h[j].level)
    ensures forall i :: 0 <= i < |h| ==> CellsAreSums(all, h[i])
    ensures multiset(Column(h, Label)) == multiset(HeatPairs(all))
    ensures forall i, j :: 0 <= i < j < |h| ==> Label(h[i]) != Label(h[j])
  {
    var rows := HeatRows(all);
    var h := SortBy(rows, HeatKey);
    SortByMembers(rows, HeatKey);
    forall i | 0 <= i < |h| ensures CellsAreSums(all, h[i]) {
      assert h[i] in h;
    }
    ColumnPermutation(rows, h, Label);
    DistinctPermutation(Column(rows, Label), Column(h, Label));
    forall i, j | 0 <= i < j < |h| ensures Rank(h[i].level) <= Rank(h[j].level) {
      assert KeyLe(HeatKey(h[i]), HeatKey(h[j]));
    }
    h
  }

  /** A cell with no matching record is 0 (`fill_value=0`). */
  lemma CellSumZero(all: seq<SkillRecord>, skill: string, level: Level, user: string)
    requires forall r :: r in all ==> !(r.skill == skill && r.level == level && r.username == user)
    ensures CellSum(all, skill, level, user) == 0
  {
  }

  /** Cells add up across tables: the cell over two users' tables together
      is the sum of the cells over each. */
  lemma CellSumAppend(a: seq<SkillRecord>, b: seq<SkillRecord>, skill: string, level: Level, user: string)
    ensures CellSum(a + b, skill, level, user) == CellSum(a, skill, level, user) + CellSum(b, skill, level, user)
  {
    FilterAppend(a, b, CellMatch(skill, level, user));
    SolvedAppend(Filter(a, CellMatch(skill, level, user)), Filter(b, CellMatch(skill, level, user)));
  }

  /** Per-user skill sums add up across tables. */
  lemma SkillSumAppend(a: seq<SkillRecord>, b: seq<SkillRecord>, skill: string, user: string)
    ensures SkillSum(a + b, skill, user) == SkillSum(a, skill, user) + SkillSum(b, skill, user)
  {
    FilterAppend(a, b, SkillUserMatch(skill, user));
    SolvedAppend(Filter(a, SkillUserMatch(skill, user)), Filter(b, SkillUserMatch(skill, user)));
  }

  /** Cells do not depend on the order of the records, so sorting the
      records first (main.py:250) changes no total. */
  lemma CellSumPermutation(a: seq<SkillRecord>, b: seq<SkillRecord>, skill: string, level: Level, user: string)
    requires multiset(a) == multiset(b)
    ensures CellSum(a, skill, level, user) == CellSum(b, skill, level, user)
    ensures SkillSum(a, skill, user) == SkillSum(b, skill, user)
  {
    var p := CellMatch(skill, level, user);
    var q := SkillUserMatch(skill, user);
    forall x ensures multiset(Filter(a, p))[x] == multiset(Filter(b, p))[x]
                 && multiset(Filter(a, q))[x] == multiset(Filter(b, q))[x] {
      FilterCount(a, p, x);
      FilterCount(b, p, x);
      FilterCount(a, q, x);
      FilterCount(b, q, x);
    }
    assert multiset(Filter(a, p)) == multiset(Filter(b, p));
    assert multiset(Filter(a, q)) == multiset(Filter(b, q));
    SolvedPermutation(Filter(a, p), Filter(b, p));
    SolvedPermutation(Filter(a, q), Filter(b, q));
  }
}
