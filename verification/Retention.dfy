/**
 Keeping the newest backups of a target: the exchange sort over the matching records and
 the deletion of the excess.
 */
module Retention {
  import opened Text

  datatype BackupRecord = BackupRecord(id: string, targetName: string, scope: string, createdAt: int, fileName: string)

  /** Newest first. */
  predicate Descending(s: seq<BackupRecord>) {
    forall i, j :: 0 <= i < j < |s| ==> s[i].createdAt >= s[j].createdAt
  }

  predicate SameRecords(a: seq<BackupRecord>, b: seq<BackupRecord>) {
    multiset(a) == multiset(b)
  }

  method Swap(a: array<BackupRecord>, i: nat, j: nat)
    requires i < a.Length && j < a.Length
    modifies a
    ensures a[..] == old(a[..])[i := old(a[j])][j := old(a[i])]
    ensures SameRecords(a[..], old(a[..]))
  {
    a[i], a[j] := a[j], a[i];
  }

  /** One sweep: the newest of the rest is brought to place `i`. */
  method Sweep(a: array<BackupRecord>, i: nat)
    requires i < a.Length
    modifies a
    ensures a[..i] == old(a[..i]) && SameRecords(a[..], old(a[..])) && SameRecords(a[i..], old(a[i..]))
    ensures forall k :: i < k < a.Length ==> a[i].createdAt >= a[k].createdAt
  {
    var j := i + 1;
    while j < a.Length
      invariant i < j <= a.Length && a[..i] == old(a[..i]) && SameRecords(a[..], old(a[..])) && SameRecords(a[i..], old(a[i..]))
      invariant forall k :: i < k < j ==> a[i].createdAt >= a[k].createdAt
    {
      if a[i].createdAt < a[j].createdAt {
        ghost var before := a[..];
        Swap(a, i, j);
        TailSwapped(before, a[..], i, j);
      }
      j := j + 1;
    }
  }

  lemma TailSwapped(before: seq<BackupRecord>, after: seq<BackupRecord>, i: nat, j: nat)
    requires i < j < |before| && after == before[i := before[j]][j := before[i]]
    ensures after[..i] == before[..i] && SameRecords(after[i..], before[i..])
  {
    assert after[i..] == before[i..][0 := before[j]][j - i := before[i]];
  }

  lemma SameMembers(a: seq<BackupRecord>, b: seq<BackupRecord>)
    requires SameRecords(a, b)
    ensures forall x :: x in a <==> x in b
  {
    forall x ensures x in a <==> x in b { assert x in multiset(a) <==> x in multiset(b); }
  }

  /** The nested exchange loops: an ordered permutation of what was there. */
  method ExchangeSort(a: array<BackupRecord>)
    modifies a
    ensures Descending(a[..]) && SameRecords(a[..], old(a[..]))
  {
    var i := 0;
    while i < a.Length
      invariant 0 <= i <= a.Length && SameRecords(a[..], old(a[..]))
      invariant forall p, q :: 0 <= p < i && p < q < a.Length ==> a[p].createdAt >= a[q].createdAt
    {
      ghost var before := a[..];
      Sweep(a, i);
      SweepKeeps(before, a[..], i);
      i := i + 1;
    }
  }

  lemma SweepKeeps(before: seq<BackupRecord>, after: seq<BackupRecord>, i: nat)
    requires i < |before| == |after| && after[..i] == before[..i] && SameRecords(after[i..], before[i..])
    requires forall p, q :: 0 <= p < i && p < q < |before| ==> before[p].createdAt >= before[q].createdAt
    requires forall k :: i < k < |after| ==> after[i].createdAt >= after[k].createdAt
    ensures forall p, q :: 0 <= p < i + 1 && p < q < |after| ==> after[p].createdAt >= after[q].createdAt
  {
    SameMembers(after[i..], before[i..]);
    forall p, q | 0 <= p < i + 1 && p < q < |after| ensures after[p].createdAt >= after[q].createdAt {
      if p < i {
        assert after[p] == after[..i][p] == before[..i][p] == before[p];
        if q < i {
          assert after[q] == after[..i][q] == before[..i][q] == before[q];
        } else {
          assert after[q] == after[i..][q - i];
          assert after[q] in after[i..];
          var k :| 0 <= k < |before[i..]| && before[i..][k] == after[q];
          assert before[i + k] == after[q];
        }
      }
    }
  }

  // ----- Which records go -----

  predicate Matches(b: BackupRecord, targetName: string, scope: string) {
    (targetName == "" || b.targetName == targetName) && (scope == "" || b.scope == scope)
  }

  function MatchingIds(backups: map<string, BackupRecord>, targetName: string, scope: string): set<string> {
    set k | k in backups && Matches(backups[k], targetName, scope)
  }

  function IdSet(s: seq<BackupRecord>): set<string> {
    set b | b in s :: b.id
  }

  lemma IdSetCons(s: seq<BackupRecord>)
    requires s != []
    ensures IdSet(s) == {s[0].id} + IdSet(s[1..])
  {
    forall x | x in IdSet(s) ensures x in {s[0].id} + IdSet(s[1..]) {
      var b :| b in s && b.id == x;
      if b != s[0] { assert b in s[1..]; }
    }
    forall x | x in {s[0].id} + IdSet(s[1..]) ensures x in IdSet(s) {
      if x == s[0].id { assert s[0] in s; } else {
        var b :| b in s[1..] && b.id == x;
        assert b in s;
      }
    }
  }

  /** As many ids as records means that no two records share one. */
  lemma {:induction false} DistinctIds(s: seq<BackupRecord>)
    ensures |IdSet(s)| <= |s|
    ensures |IdSet(s)| == |s| ==> forall i, j :: 0 <= i < j < |s| ==> s[i].id != s[j].id
  {
    if s != [] {
      IdSetCons(s);
      DistinctIds(s[1..]);
      var a, later := s[0].id, IdSet(s[1..]);
      if |IdSet(s)| == |s| {
        assert a in later ==> {a} + later == later;
        assert a !in later;
        forall i, j | 0 <= i < j < |s| ensures s[i].id != s[j].id {
          assert s[j] == s[1..][j - 1];
          assert s[1..][j - 1] in s[1..] && s[j].id in later;
          if i > 0 { assert s[i] == s[1..][i - 1]; }
        }
      }
    }
  }

  lemma {:induction false} SizeOfDistinct(s: seq<BackupRecord>)
    requires forall i, j :: 0 <= i < j < |s| ==> s[i].id != s[j].id
    ensures |IdSet(s)| == |s|
  {
    if s != [] {
      IdSetCons(s);
      SizeOfDistinct(s[1..]);
      forall b | b in s[1..] ensures b.id != s[0].id {
        var k :| 0 <= k < |s[1..]| && s[1..][k] == b;
        assert s[k + 1] == b;
      }
    }
  }

  /** The newest `keep` of the records `m` stay, everything else is untouched. */
  ghost predicate KeepsNewest(before: map<string, BackupRecord>, after: map<string, BackupRecord>, m: set<string>, keep: nat) {
    && (forall k :: k in after ==> k in before && after[k] == before[k])
    && (forall k :: k in before && k !in m ==> k in after)
    && |m * after.Keys| == Min(keep, |m|)
    && (forall k, r :: k in m && k in after && r in m && r in before && r !in after ==> before[k].createdAt >= before[r].createdAt)
  }

  /** What a pruning promises: of the records of that target and scope, an empty one standing for all, the newest stay. */
  ghost predicate Pruned(before: map<string, BackupRecord>, after: map<string, BackupRecord>, targetName: string, scope: string, keep: nat) {
    var wanted := set k | k in before && (before[k].targetName == targetName || targetName == "") &&
                                         (before[k].scope == scope || scope == "");
    KeepsNewest(before, after, wanted, keep)
  }

  lemma PrunedByMatching(before: map<string, BackupRecord>, after: map<string, BackupRecord>, targetName: string, scope: string, keep: nat)
    requires KeepsNewest(before, after, MatchingIds(before, targetName, scope), keep)
    ensures Pruned(before, after, targetName, scope, keep)
  {
    var wanted := set k | k in before && (before[k].targetName == targetName || targetName == "") &&
                                         (before[k].scope == scope || scope == "");
    assert wanted == MatchingIds(before, targetName, scope);
  }

  predicate ById(backups: map<string, BackupRecord>) {
    forall k :: k in backups ==> backups[k].id == k
  }

  lemma NothingToPrune(backups: map<string, BackupRecord>, targetName: string, scope: string, keep: nat)
    requires |MatchingIds(backups, targetName, scope)| <= keep
    ensures Pruned(backups, backups, targetName, scope, keep)
  {
    var m := MatchingIds(backups, targetName, scope);
    assert m * backups.Keys == m;
    PrunedByMatching(backups, backups, targetName, scope, keep);
  }

  lemma FrontIds(s: seq<BackupRecord>, keep: nat)
    requires keep <= |s| && forall i, j :: 0 <= i < j < |s| ==> s[i].id != s[j].id
    ensures IdSet(s) - IdSet(s[keep..]) == IdSet(s[..keep]) && |IdSet(s[..keep])| == keep
  {
    assert s == s[..keep] + s[keep..];
    SizeOfDistinct(s[..keep]);
    forall b, c | b in s[..keep] && c in s[keep..] ensures b.id != c.id {
      var i :| 0 <= i < |s[..keep]| && s[..keep][i] == b;
      var k :| 0 <= k < |s[keep..]| && s[keep..][k] == c;
      assert s[i] == b && s[keep + k] == c;
    }
    assert forall b :: b in s ==> b in s[..keep] || b in s[keep..];
    forall x | x in IdSet(s) - IdSet(s[keep..]) ensures x in IdSet(s[..keep]) {
      var b :| b in s && b.id == x;
    }
    forall x | x in IdSet(s[..keep]) ensures x in IdSet(s) - IdSet(s[keep..]) {
      var b :| b in s[..keep] && b.id == x;
      assert b in s;
    }
  }

  lemma KeptAreNewer(s: seq<BackupRecord>, keep: nat, b: BackupRecord, c: BackupRecord)
    requires Descending(s) && keep <= |s| && b in s[..keep] && c in s[keep..]
    ensures b in s && c in s && b.createdAt >= c.createdAt
  {
    var i :| 0 <= i < |s[..keep]| && s[..keep][i] == b;
    var j :| 0 <= j < |s[keep..]| && s[keep..][j] == c;
    assert s[i] == b && s[keep + j] == c;
  }

  /** The ids on either side of the cut. */
  lemma CutIds(m: set<string>, all: set<string>, front: set<string>, gone: set<string>)
    requires m <= all && m - gone == front && gone <= m
    ensures m * (all - gone) == front
    ensures forall k :: k in m && k in all - gone ==> k in front
    ensures forall k :: k in m && k !in all - gone ==> k in gone
  {
  }

  lemma CutKeepsNewest(before: map<string, BackupRecord>, m: set<string>, front: set<string>, gone: set<string>, keep: nat)
    requires m <= before.Keys && m - gone == front && gone <= m && |front| == keep <= |m|
    requires forall k, r :: k in front && r in gone ==> k in before && r in before && before[k].createdAt >= before[r].createdAt
    ensures KeepsNewest(before, before - gone, m, keep)
  {
    var after := before - gone;
    assert after.Keys == before.Keys - gone;
    CutIds(m, before.Keys, front, gone);
  }

  /** Deleting all but the first `keep` of the sorted matching records is a pruning. */
  lemma ExcessGone(before: map<string, BackupRecord>, s: seq<BackupRecord>, m: set<string>, keep: nat)
    requires Descending(s) && keep <= |s| && |s| == |m| && IdSet(s) == m && m <= before.Keys
    requires forall b :: b in s ==> b.id in before && before[b.id] == b
    ensures KeepsNewest(before, before - IdSet(s[keep..]), m, keep)
  {
    var front, gone := IdSet(s[..keep]), IdSet(s[keep..]);
    DistinctIds(s);
    FrontIds(s, keep);
    assert forall b :: b in s[keep..] ==> b in s;
    forall k, r | k in front && r in gone ensures k in before && r in before && before[k].createdAt >= before[r].createdAt {
      ByAge(before, s, keep, k, r);
    }
    CutKeepsNewest(before, m, front, gone, keep);
  }

  lemma ByAge(before: map<string, BackupRecord>, s: seq<BackupRecord>, keep: nat, k: string, r: string)
    requires Descending(s) && keep <= |s| && (forall b :: b in s ==> b.id in before && before[b.id] == b)
    requires k in IdSet(s[..keep]) && r in IdSet(s[keep..])
    ensures k in before && r in before && before[k].createdAt >= before[r].createdAt
  {
    var b :| b in s[..keep] && b.id == k;
    var c :| c in s[keep..] && c.id == r;
    KeptAreNewer(s, keep, b, c);
  }

  class Manager {
    var backups: map<string, BackupRecord>
    var files: set<string>

    /** The archive file goes with the record. */
    method DeleteBackup(id: string) returns (found: bool)
      modifies this
      ensures found == (id in old(backups))
      ensures backups == old(backups) - {id}
      ensures files == if found then old(files) - {old(backups)[id].fileName} else old(files)
    {
      if id !in backups { return false; }
      files := files - {backups[id].fileName};
      backups := backups - {id};
      return true;
    }

    method CollectMatching(targetName: string, scope: string) returns (matching: seq<BackupRecord>)
      requires ById(backups)
      ensures IdSet(matching) == MatchingIds(backups, targetName, scope) && |matching| == |MatchingIds(backups, targetName, scope)|
      ensures forall b :: b in matching ==> b.id in backups && backups[b.id] == b
    {
      matching := [];
      var todo := backups.Keys;
      ghost var m := MatchingIds(backups, targetName, scope);
      assert m - todo == {};
      while todo != {}
        invariant todo <= backups.Keys && IdSet(matching) == m - todo && |matching| == |m - todo|
        invariant forall b :: b in matching ==> b.id in backups && backups[b.id] == b
        decreases todo
      {
        var k :| k in todo;
        CollectStep(matching, backups[k], m, todo);
        if Matches(backups[k], targetName, scope) { matching := matching + [backups[k]]; }
        todo := todo - {k};
      }
      assert m - todo == m;
    }

    method DeleteAll(excess: seq<BackupRecord>)
      requires forall b :: b in excess ==> b.id in backups && backups[b.id] == b
      modifies this
      ensures backups == old(backups) - IdSet(excess)
      ensures files == old(files) - FileNames(excess)
    {
      var i := 0;
      while i < |excess|
        invariant 0 <= i <= |excess|
        invariant backups == old(backups) - IdSet(excess[..i])
        invariant files == old(files) - FileNames(excess[..i])
      {
        var b := excess[i];
        assert b in excess && excess[..i + 1] == excess[..i] + [b];
        AddedIds(excess[..i], b);
        AddedNames(excess[..i], b);
        if b.id !in backups {
          var c :| c in excess[..i] && c.id == b.id;
          assert c in excess && c == b;
        }
        var found := DeleteBackup(b.id);
        i := i + 1;
      }
      assert excess[..|excess|] == excess;
    }

    /** Nothing is pruned unless a positive number is to be kept. */
    method PruneOldBackups(targetName: string, scope: string, keepCount: int)
      requires ById(backups)
      modifies this
      ensures ById(backups)
      ensures keepCount <= 0 ==> backups == old(backups) && files == old(files)
      ensures forall k :: k in old(backups) && targetName != "" && old(backups)[k].targetName != targetName ==> k in backups
      ensures forall k :: k in old(backups) && scope != "" && old(backups)[k].scope != scope ==> k in backups
      ensures files == old(files) - (set k | k in old(backups) && k !in backups :: old(backups)[k].fileName)
      ensures keepCount > 0 ==> Pruned(old(backups), backups, targetName, scope, keepCount)
    {
      if keepCount <= 0 { return; }
      var matching := CollectMatching(targetName, scope);
      if |matching| <= keepCount {
        NothingToPrune(backups, targetName, scope, keepCount);
        return;
      }
      var a := new BackupRecord[|matching|](i requires 0 <= i < |matching| => matching[i]);
      assert a[..] == matching;
      ExchangeSort(a);
      SortedIds(matching, a[..]);
      ExcessGone(backups, a[..], MatchingIds(backups, targetName, scope), keepCount);
      PrunedByMatching(backups, backups - IdSet(a[..][keepCount..]), targetName, scope, keepCount);
      RemovedNames(backups, a[..][keepCount..]);
      DeleteAll(a[..][keepCount..]);
    }
  }

  lemma CollectStep(matching: seq<BackupRecord>, b: BackupRecord, m: set<string>, todo: set<string>)
    requires b.id in todo && IdSet(matching) == m - todo && |matching| == |m - todo|
    ensures b.id in m ==>
              IdSet(matching + [b]) == m - (todo - {b.id}) && |matching + [b]| == |m - (todo - {b.id})|
    ensures b.id !in m ==> m - (todo - {b.id}) == m - todo
  {
    if b.id in m {
      AddedIds(matching, b);
      assert m - (todo - {b.id}) == (m - todo) + {b.id};
    }
  }

  lemma AddedIds(s: seq<BackupRecord>, b: BackupRecord)
    ensures IdSet(s + [b]) == IdSet(s) + {b.id}
  {
    forall x | x in IdSet(s) + {b.id} ensures x in IdSet(s + [b]) {
      if x == b.id {
        assert b in s + [b];
      } else {
        var c :| c in s && c.id == x;
        assert c in s + [b];
      }
    }
  }

  function FileNames(s: seq<BackupRecord>): set<string> {
    set b | b in s :: b.fileName
  }

  lemma AddedNames(s: seq<BackupRecord>, b: BackupRecord)
    ensures FileNames(s + [b]) == FileNames(s) + {b.fileName}
  {
    forall x | x in FileNames(s) + {b.fileName} ensures x in FileNames(s + [b]) {
      if x == b.fileName {
        assert b in s + [b];
      } else {
        var c :| c in s && c.fileName == x;
        assert c in s + [b];
      }
    }
  }

  /** The files of the records that go are those of the records deleted. */
  lemma RemovedNames(before: map<string, BackupRecord>, excess: seq<BackupRecord>)
    requires forall b :: b in excess ==> b.id in before && before[b.id] == b
    ensures var after := before - IdSet(excess);
            FileNames(excess) == set k | k in before && k !in after :: before[k].fileName
  {
    var after := before - IdSet(excess);
    var names := set k | k in before && k !in after :: before[k].fileName;
    forall x | x in FileNames(excess) ensures x in names {
      var b :| b in excess && b.fileName == x;
      assert b.id in IdSet(excess) && b.id in before && b.id !in after;
    }
    forall x | x in names ensures x in FileNames(excess) {
      var k :| k in before && k !in after && before[k].fileName == x;
      assert k in IdSet(excess);
      var b :| b in excess && b.id == k;
      assert b.fileName == x;
    }
  }

  lemma SortedIds(s: seq<BackupRecord>, t: seq<BackupRecord>)
    requires SameRecords(t, s)
    ensures IdSet(t) == IdSet(s) && |t| == |s| && forall b :: b in t <==> b in s
  {
    SameMembers(t, s);
    assert |multiset(t)| == |multiset(s)|;
  }
}
