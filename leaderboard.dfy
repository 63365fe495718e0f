/** The fetch loop and the leaderboard table (main.py:61-71, 150-179): one
    row per user whose profile was fetched, with defaults for missing
    fields, the rank delta against the session's remembered rank, and the
    table sorted by problems solved with a positional index. The HTTP
    requests are not modelled: each user's fetch outcome is a parameter,
    `None` for any failure. */
module Leaderboard {
  import opened Wrappers
  import opened Ranks
  import opened Skills
  import opened Sorting
  import opened Frames

  /** One element of `acSubmissionNum` or `totalSubmissionNum`. */
  datatype Bucket = Bucket(difficulty: string, submissions: int)

  /** `matchedUserStats`: accepted and total submissions per difficulty. */
  datatype SubmissionStats = SubmissionStats(accepted: seq<Bucket>, total: seq<Bucket>)

  /** The profile payload, with each field the dashboard reads present or
      absent; `otherKeys` counts the keys it does not read. */
  datatype Profile = Profile(
    totalSolved: Option<int>,
    easySolved: Option<int>,
    mediumSolved: Option<int>,
    hardSolved: Option<int>,
    ranking: Option<int>,
    stats: Option<SubmissionStats>,
    otherKeys: nat)

  /** `if prof:` — a failed fetch (`None`) and an empty object both count as no data. */
  predicate Truthy(p: Option<Profile>) {
    p.Some? &&
    (p.value.totalSolved.Some? || p.value.easySolved.Some? || p.value.mediumSolved.Some? ||
     p.value.hardSolved.Some? || p.value.ranking.Some? || p.value.stats.Some? || p.value.otherKeys > 0)
  }

  /** The profile object with no keys at all. */
  const EmptyProfile := Profile(None, None, None, None, None, None, 0)

  /** A fetched profile is truthy exactly when the object has some key, as a
      Python dict is. */
  lemma TruthyNonEmpty(p: Option<Profile>)
    ensures Truthy(p) <==> p.Some? && p.value != EmptyProfile
  {
  }

  /** `compute_accuracy`'s result: 0.0, or `round(accepted / submissions * 100, 2)`
      (the floating-point value itself is not modelled). */
  datatype Accuracy = ZeroAccuracy | Ratio(accepted: int, submissions: int)

  /** Position `k` of the paired bucket lists is the first whose accepted bucket is "All". */
  predicate FirstAllAt(s: SubmissionStats, k: int) {
    0 <= k < |s.accepted| && k < |s.total| && s.accepted[k].difficulty == "All" &&
    forall j :: 0 <= j < k ==> s.accepted[j].difficulty != "All"
  }

  /** The accuracy `compute_accuracy` derives from the paired bucket lists. */
  function AccuracyFrom(s: SubmissionStats): (a: Accuracy)
    ensures forall k :: FirstAllAt(s, k) ==>
              a == if s.total[k].submissions != 0 then Ratio(s.accepted[k].submissions, s.total[k].submissions)
                   else ZeroAccuracy
    ensures (forall k :: 0 <= k < |s.accepted| && k < |s.total| ==> s.accepted[k].difficulty != "All") ==>
              a == ZeroAccuracy
    decreases |s.accepted|
  {
    if s.accepted == [] || s.total == [] then ZeroAccuracy
    else if s.accepted[0].difficulty == "All" then
      assert forall k :: FirstAllAt(s, k) ==> k == 0;
      if s.total[0].submissions != 0 then Ratio(s.accepted[0].submissions, s.total[0].submissions)
      else ZeroAccuracy
    else
      var rest := SubmissionStats(s.accepted[1..], s.total[1..]);
      var a := AccuracyFrom(rest);
      assert forall k :: FirstAllAt(s, k) ==> k > 0 && FirstAllAt(rest, k - 1) by {
        forall k | FirstAllAt(s, k) ensures k > 0 && FirstAllAt(rest, k - 1) {
          assert k > 0;
          forall j | 0 <= j < k - 1 ensures rest.accepted[j].difficulty != "All" {
            assert rest.accepted[j] == s.accepted[j + 1];
          }
        }
      }
      assert (forall k :: 0 <= k < |s.accepted| && k < |s.total| ==> s.accepted[k].difficulty != "All") ==>
             (forall k :: 0 <= k < |rest.accepted| && k < |rest.total| ==> rest.accepted[k].difficulty != "All") by {
        assert forall k :: 0 <= k < |rest.accepted| ==> rest.accepted[k] == s.accepted[k + 1];
      }
      a
  }

  /** The accuracy of a profile: 0.0 when the statistics are missing. */
  function AccuracyOf(p: Profile): Accuracy {
    if p.stats.None? then ZeroAccuracy else AccuracyFrom(p.stats.value)
  }

  /** The percentage an accuracy stands for, before rounding. */
  function Percent(a: Accuracy): real
  {
    match a
    case ZeroAccuracy => 0.0
    case Ratio(acc, sub) => if sub == 0 then 0.0 else (acc as real) / (sub as real) * 100.0
  }

  /** With no more accepted than total submissions, the accuracy is a
      percentage between 0 and 100. */
  lemma PercentBounds(a: Accuracy)
    requires a.Ratio? ==> 0 <= a.accepted <= a.submissions
    ensures 0.0 <= Percent(a) <= 100.0
  {
    if a.Ratio? && a.submissions != 0 {
      var s := a.submissions as real;
      var q := (a.accepted as real) / s;
      assert q * s == a.accepted as real;
      assert q <= s / s;
    }
  }

  /** `compute_accuracy(profile)` (main.py:61-71): scans the paired lists for
      the first "All" bucket. */
  method ComputeAccuracy(p: Profile) returns (a: Accuracy)
    ensures a == AccuracyOf(p)
  {
    if p.stats.None? {
      return ZeroAccuracy;
    }
    var s := p.stats.value;
    var k := 0;
    while k < |s.accepted| && k < |s.total|
      invariant 0 <= k
      invariant k <= |s.accepted| && k <= |s.total|
      invariant forall j :: 0 <= j < k ==> s.accepted[j].difficulty != "All"
    {
      if s.accepted[k].difficulty == "All" {
        var sub := s.total[k].submissions;
        assert FirstAllAt(s, k);
        return if sub != 0 then Ratio(s.accepted[k].submissions, sub) else ZeroAccuracy;
      }
      k := k + 1;
    }
    return ZeroAccuracy;
  }

  /** The "Rank" column: the ranking, or "N/A" when the profile has none. */
  datatype RankCell = RankNumber(n: int) | RankNA

  /** One leaderboard row (main.py:159-168). */
  datatype Row = Row(
    username: string,
    totalSolved: int,
    easy: int,
    medium: int,
    hard: int,
    accuracy: Accuracy,
    rank: RankCell,
    delta: Delta)

  /** The row built for a fetched profile: missing counts read as 0, a
      missing ranking as "N/A", and the delta is against the remembered rank. */
  function MakeRow(username: string, p: Profile, accuracy: Accuracy, prev: Option<StoredRank>): (r: Row)
    requires Known(prev) ==> p.ranking.Some?
    ensures r.username == username && r.accuracy == accuracy
    ensures r.totalSolved == p.totalSolved.GetOr(0)
    ensures r.easy == p.easySolved.GetOr(0) && r.medium == p.mediumSolved.GetOr(0) && r.hard == p.hardSolved.GetOr(0)
    ensures r.rank.RankNA? <==> p.ranking.None?
    ensures r.rank.RankNumber? ==> r.rank.n == p.ranking.value
    ensures r.delta == Unknown <==> !Known(prev)
    ensures r.delta == RankChange(prev, p.ranking)
  {
    Row(username,
        p.totalSolved.GetOr(0), p.easySolved.GetOr(0), p.mediumSolved.GetOr(0), p.hardSolved.GetOr(0),
        accuracy,
        if p.ranking.Some? then RankNumber(p.ranking.value) else RankNA,
        RankChange(prev, p.ranking))
  }

  /** What `prev_ranks[user]` is set to after the user's fetch (main.py:170). */
  function Stored(p: Option<Profile>): (s: StoredRank)
    ensures s == NotAvailable <==> !Truthy(p)
    ensures s.RankValue? <==> Truthy(p) && p.value.ranking.Some?
    ensures s.RankValue? ==> s.n == p.value.ranking.value
  {
    if !Truthy(p) then NotAvailable
    else if p.value.ranking.Some? then RankValue(p.value.ranking.value)
    else NoRanking
  }

  /** The session's remembered ranks after fetching `users` in order. */
  function RanksAfter(prev: map<string, StoredRank>, users: seq<string>, profiles: seq<Option<Profile>>): map<string, StoredRank>
    requires |profiles| == |users|
  {
    if users == [] then prev
    else
      var n := |users| - 1;
      RanksAfter(prev, users[..n], profiles[..n])[users[n] := Stored(profiles[n])]
  }

  /** The fetch loop does not raise: whenever a fetched profile meets a
      numeric remembered rank, the profile has a ranking. */
  predicate RunDefined(prev: map<string, StoredRank>, users: seq<string>, profiles: seq<Option<Profile>>)
    requires |profiles| == |users|
  {
    forall i :: 0 <= i < |users| && Truthy(profiles[i]) && Known(Get(RanksAfter(prev, users[..i], profiles[..i]), users[i])) ==>
      profiles[i].value.ranking.Some?
  }

  lemma RunDefinedPrefix(prev: map<string, StoredRank>, users: seq<string>, profiles: seq<Option<Profile>>, n: nat)
    requires |profiles| == |users| && n <= |users|
    requires RunDefined(prev, users, profiles)
    ensures RunDefined(prev, users[..n], profiles[..n])
  {
    forall i | 0 <= i < n
      ensures users[..n][..i] == users[..i] && profiles[..n][..i] == profiles[..i]
    {
    }
  }

  /** The rows the fetch loop appends, in user order. */
  function RunRows(prev: map<string, StoredRank>, users: seq<string>, profiles: seq<Option<Profile>>): seq<Row>
    requires |profiles| == |users|
    requires RunDefined(prev, users, profiles)
  {
    if users == [] then []
    else
      var n := |users| - 1;
      RunDefinedPrefix(prev, users, profiles, n);
      RunRows(prev, users[..n], profiles[..n]) +
      (if Truthy(profiles[n])
       then [MakeRow(users[n], profiles[n].value, AccuracyOf(profiles[n].value), Get(RanksAfter(prev, users[..n], profiles[..n]), users[n]))]
       else [])
  }

  /** The skill tables the fetch loop appends: one per fetched profile. */
  function RunTables(users: seq<string>, profiles: seq<Option<Profile>>, payloads: seq<Option<Payload>>): seq<seq<SkillRecord>>
    requires |profiles| == |users| && |payloads| == |users|
  {
    if users == [] then []
    else
      var n := |users| - 1;
      RunTables(users[..n], profiles[..n], payloads[..n]) +
      (if Truthy(profiles[n]) then [SkillTable(users[n], payloads[n])] else [])
  }

  /** A run leaves the remembered rank of a user it did not fetch untouched. */
  lemma {:induction false} RanksAfterUnfetched(prev: map<string, StoredRank>, users: seq<string>, profiles: seq<Option<Profile>>, u: string)
    requires |profiles| == |users| && u !in users
    ensures Get(RanksAfter(prev, users, profiles), u) == Get(prev, u)
  {
    if users != [] {
      var n := |users| - 1;
      assert users[n] in users;
      forall k | 0 <= k < n
        ensures users[..n][k] != u
      {
        assert users[k] in users;
      }
      RanksAfterUnfetched(prev, users[..n], profiles[..n], u);
    }
  }

  /** After a run, a fetched user's remembered rank is what their last
      fetch in the run stored. */
  lemma {:induction false} RanksAfterLast(prev: map<string, StoredRank>, users: seq<string>, profiles: seq<Option<Profile>>, k: nat)
    requires |profiles| == |users| && k < |users|
    requires forall j :: k < j < |users| ==> users[j] != users[k]
    ensures Get(RanksAfter(prev, users, profiles), users[k]) == Some(Stored(profiles[k]))
  {
    var n := |users| - 1;
    if k < n {
      assert users[n] != users[k];
      assert users[..n][k] == users[k];
      RanksAfterLast(prev, users[..n], profiles[..n], k);
    }
  }

  /** With no user listed twice, every row's delta compares against the rank
      remembered from the previous run. */
  lemma RunUsesPreviousRun(prev: map<string, StoredRank>, users: seq<string>, profiles: seq<Option<Profile>>, i: nat)
    requires |profiles| == |users| && i < |users|
    requires forall a, b :: 0 <= a < b < |users| ==> users[a] != users[b]
    ensures Get(RanksAfter(prev, users[..i], profiles[..i]), users[i]) == Get(prev, users[i])
  {
    forall a | 0 <= a < i
      ensures users[..i][a] != users[i]
    {
    }
    RanksAfterUnfetched(prev, users[..i], profiles[..i], users[i]);
  }

  /** Leaderboard order: Total Solved descending. */
  function TotalKey(r: Row): (int, int) {
    (-r.totalSolved, 0)
  }

  /** The row of an indexed table entry. */
  function EntryRow(e: (nat, Row)): Row {
    e.1
  }

  /** The leaderboard table (main.py:178-179): the rows sorted by Total
      Solved, most first, indexed 1..n by position. */
  function LeaderboardTable(rows: seq<Row>): (t: seq<(nat, Row)>)
    ensures |t| == |rows|
    ensures forall i :: 0 <= i < |t| ==> t[i].0 == i + 1
    ensures forall i, j :: 0 <= i < j < |t| ==> t[i].1.totalSolved >= t[j].1.totalSolved
    ensures multiset(Column(t, EntryRow)) == multiset(rows)
  {
    var sorted := SortBy(rows, TotalKey);
    assert forall i, j :: 0 <= i < j < |sorted| ==> KeyLe(TotalKey(sorted[i]), TotalKey(sorted[j]));
    var t: seq<(nat, Row)> := seq(|sorted|, i requires 0 <= i < |sorted| => (i + 1, sorted[i]));
    assert Column(t, EntryRow) == sorted;
    t
  }

  /** The session state the dashboard keeps between runs. */
  class Session {
    var prevRanks: map<string, StoredRank>

    /** A new session remembers no ranks (main.py:113-114). */
    constructor ()
      ensures prevRanks == map[]
    {
      prevRanks := map[];
    }

    /** "Refresh All" forgets every remembered rank (main.py:139). */
    method Refresh()
      modifies this
      ensures prevRanks == map[]
    {
      prevRanks := map[];
    }

    /** The fetch loop (main.py:152-170), with each user's profile and skill
        payload given as fetch outcomes. */
    method Run(users: seq<string>, profiles: seq<Option<Profile>>, payloads: seq<Option<Payload>>)
      returns (rows: seq<Row>, tables: seq<seq<SkillRecord>>)
      requires |profiles| == |users| && |payloads| == |users|
      requires RunDefined(prevRanks, users, profiles)
      modifies this
      ensures prevRanks == RanksAfter(old(prevRanks), users, profiles)
      ensures rows == RunRows(old(prevRanks), users, profiles)
      ensures tables == RunTables(users, profiles, payloads)
    {
      ghost var start := prevRanks;
      rows, tables := [], [];
      var i := 0;
      while i < |users|
        invariant 0 <= i <= |users|
        invariant prevRanks == RanksAfter(start, users[..i], profiles[..i])
        invariant RunDefined(start, users[..i], profiles[..i])
        invariant rows == RunRows(start, users[..i], profiles[..i])
        invariant tables == RunTables(users[..i], profiles[..i], payloads[..i])
      {
        var user, prof := users[i], profiles[i];
        RunStep(start, users, profiles, payloads, i);
        if Truthy(prof) {
          var accuracy := ComputeAccuracy(prof.value);
          rows := rows + [MakeRow(user, prof.value, accuracy, Get(prevRanks, user))];
          var table := GetSkillTable(user, payloads[i]);
          tables := tables + [table];
        }
        prevRanks := prevRanks[user := Stored(prof)];
        i := i + 1;
      }
      assert users[..i] == users && profiles[..i] == profiles && payloads[..i] == payloads;
    }
  }

  /** One more user in the fetch loop: the specification functions take one step. */
  lemma RunStep(prev: map<string, StoredRank>, users: seq<string>, profiles: seq<Option<Profile>>,
                payloads: seq<Option<Payload>>, i: nat)
    requires |profiles| == |users| && |payloads| == |users| && i < |users|
    requires RunDefined(prev, users, profiles)
    requires RunDefined(prev, users[..i], profiles[..i])
    ensures RunDefined(prev, users[..i + 1], profiles[..i + 1])
    ensures Truthy(profiles[i]) && Known(Get(RanksAfter(prev, users[..i], profiles[..i]), users[i])) ==>
              profiles[i].value.ranking.Some?
    ensures RanksAfter(prev, users[..i + 1], profiles[..i + 1])
         == RanksAfter(prev, users[..i], profiles[..i])[users[i] := Stored(profiles[i])]
    ensures RunRows(prev, users[..i + 1], profiles[..i + 1])
         == RunRows(prev, users[..i], profiles[..i]) +
            (if Truthy(profiles[i])
             then [MakeRow(users[i], profiles[i].value, AccuracyOf(profiles[i].value), Get(RanksAfter(prev, users[..i], profiles[..i]), users[i]))]
             else [])
    ensures RunTables(users[..i + 1], profiles[..i + 1], payloads[..i + 1])
         == RunTables(users[..i], profiles[..i], payloads[..i]) +
            (if Truthy(profiles[i]) then [SkillTable(users[i], payloads[i])] else [])
  {
    RunDefinedPrefix(prev, users, profiles, i + 1);
    assert users[..i + 1][..i] == users[..i];
    assert profiles[..i + 1][..i] == profiles[..i];
    assert payloads[..i + 1][..i] == payloads[..i];
  }
}
