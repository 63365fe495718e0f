/** The skill fetcher's table (`get_skill_table`, main.py:73-100): the skill
    payload is flattened into records, level names are normalised, missing
    fields are defaulted and the records are ordered by level and then by
    problems solved, most first. The HTTP request is not modelled: its
    outcome is a parameter, `None` for any failure. */
module Skills {
  import opened Wrappers
  import opened Levels
  import opened Sorting

  /** One element of a level's list in the payload; `NotAnObject` is any JSON
      value that is not an object (calling `.get` on it raises). */
  datatype SkillEntry = Entry(tagName: Option<string>, problemsSolved: Option<int>) | NotAnObject

  /** The value stored under a level name: a list, or any other JSON value. */
  datatype LevelValue = List(entries: seq<SkillEntry>) | NotAList

  /** The payload object: level names with their values, in the order the
      object lists them. */
  type Payload = seq<(string, LevelValue)>

  datatype SkillRecord = SkillRecord(level: Level, skill: string, solved: int, username: string)

  /** The record built for one entry, with the defaults for missing fields. */
  function MakeRecord(username: string, level: Level, e: SkillEntry): SkillRecord
    requires e.Entry?
  {
    SkillRecord(level, e.tagName.GetOr("Unknown"), e.problemsSolved.GetOr(0), username)
  }

  /** A key whose value, if a list, holds only objects. */
  predicate ItemWellFormed(item: (string, LevelValue)) {
    item.1.List? ==> forall j :: 0 <= j < |item.1.entries| ==> item.1.entries[j].Entry?
  }

  /** No listed entry is a non-object, so building the records does not raise. */
  predicate WellFormed(p: Payload) {
    forall i :: 0 <= i < |p| ==> ItemWellFormed(p[i])
  }

  /** The records of one level's entries, in list order (non-objects skipped). */
  function EntryRecords(username: string, level: Level, es: seq<SkillEntry>): seq<SkillRecord>
  {
    if es == [] then []
    else
      var last := es[|es| - 1];
      EntryRecords(username, level, es[..|es| - 1]) + (if last.Entry? then [MakeRecord(username, level, last)] else [])
  }

  /** The records one payload key contributes: none unless its value is a list. */
  function LevelRecords(username: string, item: (string, LevelValue)): seq<SkillRecord>
  {
    if item.1.List? then EntryRecords(username, Normalize(item.0), item.1.entries) else []
  }

  /** The records appended by the nested loop of main.py:80-92, in order. */
  function Records(username: string, p: Payload): seq<SkillRecord>
  {
    if p == [] then [] else Records(username, p[..|p| - 1]) + LevelRecords(username, p[|p| - 1])
  }

  /** Number of entries under list-valued keys. */
  function ListedCount(p: Payload): nat
  {
    if p == [] then 0
    else ListedCount(p[..|p| - 1]) + (if p[|p| - 1].1.List? then |p[|p| - 1].1.entries| else 0)
  }

  /** The records of the payload, or `None` when building them raises. */
  function RecordsOf(username: string, p: Payload): Option<seq<SkillRecord>>
  {
    if WellFormed(p) then Some(Records(username, p)) else None
  }

  /** The inner loop of main.py:84-92 over one level's list: one record per
      entry, or `None` at the first entry that is not an object. */
  method LevelEntries(username: string, level: Level, es: seq<SkillEntry>) returns (result: Option<seq<SkillRecord>>)
    ensures result.Some? <==> forall j :: 0 <= j < |es| ==> es[j].Entry?
    ensures result.Some? ==> result.value == EntryRecords(username, level, es)
  {
    var records: seq<SkillRecord> := [];
    var j := 0;
    while j < |es|
      invariant 0 <= j <= |es|
      invariant forall k :: 0 <= k < j ==> es[k].Entry?
      invariant records == EntryRecords(username, level, es[..j])
    {
      var e := es[j];
      if e.NotAnObject? {
        return None;
      }
      EntryRecordsSnoc(username, level, es, j);
      records := records + [MakeRecord(username, level, e)];
      j := j + 1;
    }
    assert es[..j] == es;
    result := Some(records);
  }

  /** The nested loop of main.py:79-92, appending one record per listed entry. */
  method BuildRecords(username: string, p: Payload) returns (result: Option<seq<SkillRecord>>)
    ensures result == RecordsOf(username, p)
  {
    var records: seq<SkillRecord> := [];
    var i := 0;
    while i < |p|
      invariant 0 <= i <= |p|
      invariant WellFormed(p[..i])
      invariant records == Records(username, p[..i])
    {
      var (name, value) := p[i];
      if value.List? {
        var level := Normalize(name);
        var found := LevelEntries(username, level, value.entries);
        if found.None? {
          assert !ItemWellFormed(p[i]);
          return None;
        }
        records := records + found.value;
      }
      RecordsSnoc(username, p, i);
      i := i + 1;
    }
    assert p[..i] == p;
    result := Some(records);
  }

  /** One more list entry appends its record, if it is an object. */
  lemma EntryRecordsSnoc(username: string, level: Level, es: seq<SkillEntry>, j: nat)
    requires j < |es|
    ensures EntryRecords(username, level, es[..j + 1])
         == EntryRecords(username, level, es[..j]) + (if es[j].Entry? then [MakeRecord(username, level, es[j])] else [])
  {
    assert es[..j + 1][..j] == es[..j];
  }

  /** One more payload key appends its records. */
  lemma RecordsSnoc(username: string, p: Payload, i: nat)
    requires i < |p|
    ensures Records(username, p[..i + 1]) == Records(username, p[..i]) + LevelRecords(username, p[i])
    ensures WellFormed(p[..i + 1]) <==> WellFormed(p[..i]) && ItemWellFormed(p[i])
  {
    assert p[..i + 1][..i] == p[..i];
    assert p[..i + 1] == p[..i] + [p[i]];
  }

  /** Records of a concatenated payload are the records of its parts, in order. */
  lemma {:induction false} RecordsAppend(username: string, p: Payload, q: Payload)
    ensures Records(username, p + q) == Records(username, p) + Records(username, q)
  {
    if q != [] {
      var q' := q[..|q| - 1];
      assert (p + q)[..|p + q| - 1] == p + q';
      assert (p + q)[|p + q| - 1] == q[|q| - 1];
      RecordsAppend(username, p, q');
      assert Records(username, q) == Records(username, q') + LevelRecords(username, q[|q| - 1]);
    } else {
      assert p + q == p;
    }
  }

  /** Keys whose value is not a list contribute nothing (main.py:84). */
  lemma NonListIgnored(username: string, p: Payload, i: nat)
    requires i < |p| && p[i].1.NotAList?
    ensures Records(username, p) == Records(username, p[..i] + p[i + 1..])
    ensures WellFormed(p) <==> WellFormed(p[..i] + p[i + 1..])
  {
    var a, b := p[..i], p[i + 1..];
    assert p == (a + [p[i]]) + b;
    calc {
      Records(username, p);
      Records(username, (a + [p[i]]) + b);
      { RecordsAppend(username, a + [p[i]], b); }
      Records(username, a + [p[i]]) + Records(username, b);
      { RecordsAppend(username, a, [p[i]]); RecordsSingle(username, p[i]); }
      Records(username, a) + Records(username, b);
      { RecordsAppend(username, a, b); }
      Records(username, a + b);
    }
    WellFormedAppend(a + [p[i]], b);
    WellFormedAppend(a, [p[i]]);
    WellFormedAppend(a, b);
  }

  lemma RecordsSingle(username: string, item: (string, LevelValue))
    ensures Records(username, [item]) == LevelRecords(username, item)
  {
    assert [item][..0] == [];
  }

  lemma WellFormedAppend(p: Payload, q: Payload)
    ensures WellFormed(p + q) <==> WellFormed(p) && WellFormed(q)
  {
    assert forall a :: 0 <= a < |p| ==> (p + q)[a] == p[a];
    assert forall a :: 0 <= a < |q| ==> (p + q)[|p| + a] == q[a];
  }

  /** When every entry is an object, each one yields exactly one record, at its own position. */
  lemma {:induction false} EntryRecordsAt(username: string, level: Level, es: seq<SkillEntry>)
    requires forall k :: 0 <= k < |es| ==> es[k].Entry?
    ensures |EntryRecords(username, level, es)| == |es|
    ensures forall k :: 0 <= k < |es| ==> EntryRecords(username, level, es)[k] == MakeRecord(username, level, es[k])
  {
    if es != [] {
      EntryRecordsAt(username, level, es[..|es| - 1]);
    }
  }

  /** A well-formed payload yields one record per listed entry. */
  lemma {:induction false} RecordsCount(username: string, p: Payload)
    requires WellFormed(p)
    ensures |Records(username, p)| == ListedCount(p)
  {
    if p != [] {
      var p' := p[..|p| - 1];
      assert WellFormed(p') by {
        assert forall a :: 0 <= a < |p'| ==> p'[a] == p[a];
      }
      RecordsCount(username, p');
      var last := p[|p| - 1];
      if last.1.List? {
        EntryRecordsAt(username, Normalize(last.0), last.1.entries);
      }
    }
  }

  /** Entry `j` of the list under key `i` of a well-formed payload becomes the
      record at position `|Records(p[..i])| + j`: its level is the normalised
      key, its tag defaults to "Unknown", its count to 0, and it carries the
      user's name. */
  lemma RecordsAt(username: string, p: Payload, i: nat, j: nat)
    requires WellFormed(p)
    requires i < |p| && p[i].1.List? && j < |p[i].1.entries|
    ensures |Records(username, p[..i])| + j < |Records(username, p)|
    ensures Records(username, p)[|Records(username, p[..i])| + j]
         == SkillRecord(Normalize(p[i].0),
                        p[i].1.entries[j].tagName.GetOr("Unknown"),
                        p[i].1.entries[j].problemsSolved.GetOr(0),
                        username)
  {
    var es := p[i].1.entries;
    assert p == p[..i] + [p[i]] + p[i + 1..];
    RecordsAppend(username, p[..i] + [p[i]], p[i + 1..]);
    RecordsAppend(username, p[..i], [p[i]]);
    assert Records(username, [p[i]]) == LevelRecords(username, p[i]) by {
      assert [p[i]][..0] == [];
    }
    assert ItemWellFormed(p[i]);
    EntryRecordsAt(username, Normalize(p[i].0), es);
  }

  /** Display order of skill records: level rank ascending, then problems solved descending. */
  function SkillKey(r: SkillRecord): (int, int) {
    (Rank(r.level), -r.solved)
  }

  /** `a` may precede `b` in a level-sorted table. */
  predicate SkillBefore(a: SkillRecord, b: SkillRecord) {
    Rank(a.level) < Rank(b.level) || (a.level == b.level && a.solved >= b.solved)
  }

  predicate SkillOrdered(s: seq<SkillRecord>) {
    forall i, j :: 0 <= i < j < |s| ==> SkillBefore(s[i], s[j])
  }

  /** `sort_values(["_sort", "Problems Solved"], ascending=[True, False])`. */
  function SortSkills(s: seq<SkillRecord>): (r: seq<SkillRecord>)
    ensures SkillOrdered(r)
    ensures multiset(r) == multiset(s)
  {
    var r := SortBy(s, SkillKey);
    assert SkillOrdered(r) by {
      forall i, j | 0 <= i < j < |r|
        ensures SkillBefore(r[i], r[j])
      {
        assert KeyLe(SkillKey(r[i]), SkillKey(r[j]));
        RankOrder(r[i].level, r[j].level);
      }
    }
    r
  }

  /** The table `get_skill_table` returns: empty on a failed fetch or when
      building the records raises, else the sorted records. */
  function SkillTable(username: string, fetched: Option<Payload>): (t: seq<SkillRecord>)
    ensures SkillOrdered(t)
    ensures forall k :: 0 <= k < |t| ==> t[k].username == username
    ensures fetched.None? ==> t == []
    ensures fetched.Some? && !WellFormed(fetched.value) ==> t == []
    ensures fetched.Some? && WellFormed(fetched.value) ==>
              multiset(t) == multiset(Records(username, fetched.value))
  {
    match fetched
    case None => []
    case Some(p) =>
      if !WellFormed(p) then []
      else
        var t := SortSkills(Records(username, p));
        RecordsUser(username, p);
        assert forall k :: 0 <= k < |t| ==> t[k] in multiset(Records(username, p));
        t
  }

  /** Every record built for a user carries that user's name. */
  lemma {:induction false} RecordsUser(username: string, p: Payload)
    ensures forall r :: r in Records(username, p) ==> r.username == username
  {
    if p != [] {
      RecordsUser(username, p[..|p| - 1]);
      var last := p[|p| - 1];
      if last.1.List? {
        EntryRecordsUser(username, Normalize(last.0), last.1.entries);
      }
    }
  }

  lemma {:induction false} EntryRecordsUser(username: string, level: Level, es: seq<SkillEntry>)
    ensures forall r :: r in EntryRecords(username, level, es) ==> r.username == username && r.level == level
  {
    if es != [] {
      EntryRecordsUser(username, level, es[..|es| - 1]);
    }
  }

  /** `get_skill_table(username)` with the fetched payload as a parameter. */
  method GetSkillTable(username: string, fetched: Option<Payload>) returns (t: seq<SkillRecord>)
    ensures t == SkillTable(username, fetched)
  {
    if fetched.None? {
      return [];
    }
    var built := BuildRecords(username, fetched.value);
    if built.None? {
      return [];
    }
    t := SortSkills(built.value);
  }
}
