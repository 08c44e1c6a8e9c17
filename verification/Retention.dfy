/** The two retention loops of a backup: on a claim, count the dumps and drop the oldest first; in a
    bucket, sort descending and drop what comes after the first N. Both keep the newest N dumps of
    the database, drop every pruned dump with its filestore archive, and touch nothing else. */
module Retention {
  import opened Text

  const DUMP := ".dump"
  const ARCHIVE := "-filestore.tar.gz"

  predicate Digit(c: char) {
    '0' <= c <= '9'
  }

  /** A UTC timestamp as the dump names carry it: eight digits, T, six digits, Z. */
  predicate IsStamp(s: string) {
    |s| == 16 && s[8] == 'T' && s[15] == 'Z' && forall i :: 0 <= i < 15 && i != 8 ==> Digit(s[i])
  }

  function DumpName(db: string, stamp: string): string {
    db + "-" + stamp + DUMP
  }

  /** The pattern of the loops. */
  predicate IsDump(db: string, f: string) {
    && |f| == |db| + 22 && f[..|db|] == db && f[|db|] == '-'
    && IsStamp(f[|db| + 1..|db| + 17]) && f[|db| + 17..] == DUMP
  }

  function Archive(f: string): string
    requires |f| >= |DUMP|
  {
    f[..|f| - |DUMP|] + ARCHIVE
  }

  // ---- What is pruned ----------------------------------------------------------------------

  function Dumps(names: set<string>, db: string): set<string> {
    set f | f in names && IsDump(db, f)
  }

  ghost function Newer(names: set<string>, db: string, f: string): set<string> {
    set g | g in Dumps(names, db) && Less(f, g)
  }

  /** The dumps that have at least `keep` newer ones. */
  ghost function OldDumps(names: set<string>, db: string, keep: nat): set<string> {
    set f | f in Dumps(names, db) && |Newer(names, db, f)| >= keep
  }

  ghost function Archives(dumps: set<string>): set<string> {
    set f | f in dumps && |f| >= |DUMP| :: Archive(f)
  }

  ghost function Retained(names: set<string>, db: string, retention: int): set<string> {
    if retention <= 0 then names
    else names - OldDumps(names, db, retention) - Archives(OldDumps(names, db, retention))
  }

  // ---- Names -------------------------------------------------------------------------------

  lemma DumpNames(db: string, f: string)
    ensures IsDump(db, f) <==> exists stamp :: IsStamp(stamp) && f == DumpName(db, stamp)
  {
    if IsDump(db, f) {
      var stamp := f[|db| + 1..|db| + 17];
      assert f == f[..|db|] + [f[|db|]] + stamp + f[|db| + 17..];
      assert f == DumpName(db, stamp);
    }
    forall stamp | IsStamp(stamp) && f == DumpName(db, stamp) ensures IsDump(db, f) {
      assert f[|db| + 1..|db| + 17] == stamp && f[..|db|] == db && f[|db| + 17..] == DUMP;
    }
  }

  /** The two files of a backup are told by the database and the time. */
  lemma FileNames(db: string, stamp: string)
    ensures DumpName(db, stamp) == db + "-" + stamp + ".dump"
    ensures Archive(DumpName(db, stamp)) == db + "-" + stamp + "-filestore.tar.gz"
    ensures IsStamp("20240131T235959Z") && !IsStamp("20240131T235959z") && !IsStamp("2024-01-31T23:59Z")
  {
    var f := DumpName(db, stamp);
    assert f[..|f| - |DUMP|] == db + "-" + stamp;
  }

  /** The dump or the archive of a backup of the database. */
  predicate BelongsTo(db: string, f: string) {
    IsDump(db, f)
    || (|f| == |db| + 17 + |ARCHIVE| && f[|db| + 17..] == ARCHIVE && IsDump(db, f[..|db| + 17] + DUMP))
  }

  lemma LastLetter(db: string, f: string)
    requires BelongsTo(db, f)
    ensures f != "" && f[|f| - 1] == if IsDump(db, f) then 'p' else 'z'
  {
    if IsDump(db, f) {
      assert f[|f| - 1] == f[|db| + 17..][4];
    } else {
      assert f[|f| - 1] == f[|db| + 17..][16];
    }
  }

  /** The timestamp has a fixed length, so no file belongs to two databases, even when one name is a
      prefix of the other. */
  lemma OneDatabase(a: string, b: string, f: string)
    requires BelongsTo(a, f) && BelongsTo(b, f)
    ensures a == b
  {
    LastLetter(a, f);
    LastLetter(b, f);
    if IsDump(a, f) != IsDump(b, f) {
      assert false;
    } else if IsDump(a, f) {
      assert a == f[..|f| - 22] == b;
    } else {
      var g := f[..|f| - |ARCHIVE|] + DUMP;
      assert |f| == |a| + 17 + |ARCHIVE| && |f| == |b| + 17 + |ARCHIVE|;
      assert a == g[..|g| - 22] == b;
    }
  }

  lemma ArchiveBelongs(db: string, f: string)
    requires IsDump(db, f)
    ensures BelongsTo(db, f) && BelongsTo(db, Archive(f)) && !IsDump(db, Archive(f))
  {
    var a := Archive(f);
    assert f[..|db| + 17] == a[..|db| + 17];
    assert a[..|db| + 17] + DUMP == f by {
      assert f == f[..|db| + 17] + f[|db| + 17..];
    }
    assert a[|db| + 17..] == ARCHIVE;
  }

  /** Names of one database sort by their timestamps. */
  lemma SortsByTime(db: string, s: string, t: string)
    requires |s| == |t|
    ensures Less(DumpName(db, s), DumpName(db, t)) <==> Less(s, t)
  {
    assert DumpName(db, s) == (db + "-") + (s + DUMP) && DumpName(db, t) == (db + "-") + (t + DUMP);
    LessAfterPrefix(db + "-", s + DUMP, t + DUMP);
    LessSameSuffix(s, t, DUMP);
  }

  lemma {:induction false} LessSameSuffix(s: string, t: string, suffix: string)
    requires |s| == |t|
    ensures Less(s + suffix, t + suffix) <==> Less(s, t)
  {
    if s == "" {
      assert t == "" && s + suffix == suffix && t + suffix == suffix;
      LessIrreflexive(suffix);
    } else {
      LessSameSuffix(s[1..], t[1..], suffix);
      assert (s + suffix)[1..] == s[1..] + suffix && (t + suffix)[1..] == t[1..] + suffix;
    }
  }

  // ---- Ranks -------------------------------------------------------------------------------

  ghost function Elements(list: seq<string>): set<string> {
    set f | f in list
  }

  lemma {:induction false} DistinctCount(list: seq<string>)
    requires forall i, j :: 0 <= i < j < |list| ==> list[i] != list[j]
    ensures |Elements(list)| == |list|
  {
    if list != [] {
      DistinctCount(list[1..]);
      assert Elements(list) == Elements(list[1..]) + {list[0]};
      assert list[0] !in list[1..];
    } else {
      assert Elements(list) == {};
    }
  }

  /** In a list without repetition, what is not before a cut is after it. */
  lemma Cut(list: seq<string>, n: nat, f: string)
    requires (forall i, j :: 0 <= i < j < |list| ==> list[i] != list[j]) && n <= |list| && f in list
    ensures f in list[..n] <==> f !in list[n..]
    ensures forall k :: 0 <= k < |list| && list[k] == f ==> (f in list[..n] <==> k < n)
  {
    var k :| 0 <= k < |list| && list[k] == f;
    if k < n {
      assert list[..n][k] == f;
    } else {
      assert list[n..][k - n] == f;
    }
  }

  /** In the ascending list, a dump has as many newer ones as come after it. */
  lemma RankOf(names: set<string>, db: string, list: seq<string>, k: nat)
    requires Enumerates(list, Dumps(names, db)) && k < |list|
    ensures |Newer(names, db, list[k])| == |list| - 1 - k
  {
    var rest := list[k + 1..];
    AscendingIsSorted(list);
    DistinctCount(rest);
    forall g | g in list ensures g in rest <==> Less(list[k], g) {
      var j :| 0 <= j < |list| && list[j] == g;
      Cut(list, k + 1, g);
      LessIrreflexive(g);
      if j < k {
        LessAsymmetric(list[j], list[k]);
      }
    }
    assert forall g :: g in rest ==> g in list;
    assert Newer(names, db, list[k]) == Elements(rest);
  }

  function Excess(total: nat, keep: nat): nat {
    if total > keep then total - keep else 0
  }

  lemma OldOnesComeFirst(names: set<string>, db: string, list: seq<string>, keep: nat)
    requires Enumerates(list, Dumps(names, db))
    ensures OldDumps(names, db, keep) == Elements(list[..Excess(|list|, keep)])
  {
    var n := Excess(|list|, keep);
    AscendingIsSorted(list);
    forall f | f in list ensures f in OldDumps(names, db, keep) <==> f in list[..n] {
      var k :| 0 <= k < |list| && list[k] == f;
      RankOf(names, db, list, k);
      Cut(list, n, f);
    }
    assert forall f :: f in list[..n] ==> f in list;
  }

  // ---- The results -------------------------------------------------------------------------

  lemma KeptDumps(names: set<string>, db: string, retention: nat)
    requires retention > 0
    ensures Dumps(Retained(names, db, retention), db) == Dumps(names, db) - OldDumps(names, db, retention)
  {
    forall f | f in OldDumps(names, db, retention) ensures Archive(f) !in Dumps(names, db) {
      ArchiveBelongs(db, f);
    }
  }

  lemma SplitList(list: seq<string>, n: nat)
    requires Ascending(list) && n <= |list|
    ensures Elements(list) - Elements(list[..n]) == Elements(list[n..]) && |Elements(list[n..])| == |list| - n
    ensures forall f, g :: f in Elements(list[..n]) && g in Elements(list[n..]) ==> Less(f, g)
  {
    AscendingIsSorted(list);
    forall f | f in list ensures f in list[..n] <==> f !in list[n..] {
      Cut(list, n, f);
    }
    DistinctCount(list[n..]);
    forall f, g | f in list[..n] && g in list[n..] ensures Less(f, g) {
      var i :| 0 <= i < n && list[..n][i] == f;
      var j :| 0 <= j < |list| - n && list[n..][j] == g;
      assert list[i] == f && list[n + j] == g;
    }
  }

  /** Of the dumps that were there, those that are not old: the newest min(N, total). */
  lemma NewestOf(names: set<string>, db: string, retention: nat, kept: set<string>)
    requires kept == Dumps(names, db) - OldDumps(names, db, retention)
    ensures |kept| == if |Dumps(names, db)| < retention then |Dumps(names, db)| else retention
    ensures forall f, g :: f in OldDumps(names, db, retention) && g in kept ==> Less(f, g)
  {
    var dumps, excess := Dumps(names, db), OldDumps(names, db, retention);
    var list := SortedElements(dumps);
    assert Enumerates(list, dumps);
    OldOnesComeFirst(names, db, list, retention);
    var n := Excess(|list|, retention);
    SplitList(list, n);
    assert Elements(list) == dumps;
    assert kept == Elements(list[n..]);
  }

  /** What stays are the newest min(N, total) dumps: that many, and each newer than every pruned
      one. */
  lemma NewestStay(names: set<string>, db: string, retention: nat)
    requires retention > 0
    ensures var kept := Dumps(Retained(names, db, retention), db);
            && |kept| == (if |Dumps(names, db)| < retention then |Dumps(names, db)| else retention)
            && forall f, g :: f in OldDumps(names, db, retention) && g in kept ==> Less(f, g)
  {
    KeptDumps(names, db, retention);
    NewestOf(names, db, retention, Dumps(Retained(names, db, retention), db));
  }

  /** An archive goes exactly with its dump. */
  lemma ArchivesFollow(names: set<string>, db: string, retention: nat, f: string)
    requires retention > 0 && f in Dumps(names, db) && Archive(f) in names
    ensures f in Retained(names, db, retention) <==> Archive(f) in Retained(names, db, retention)
  {
    var excess := OldDumps(names, db, retention);
    ArchiveBelongs(db, f);
    forall g | g in excess ensures Archive(g) == Archive(f) ==> g == f {
      assert g == g[..|g| - 5] + DUMP && f == f[..|f| - 5] + DUMP;
      assert Archive(g) == Archive(f) ==> g[..|g| - 5] == Archive(g)[..|g| - 5] == f[..|f| - 5];
    }
    forall g | g in excess ensures Archive(g) != f {
      ArchiveBelongs(db, g);
    }
  }

  /** Nothing of another database, and no other file, is ever removed. */
  lemma OthersStay(names: set<string>, db: string, retention: int, f: string)
    requires f in names && f !in Retained(names, db, retention)
    ensures BelongsTo(db, f)
    ensures forall other :: BelongsTo(other, f) ==> other == db
  {
    var excess := OldDumps(names, db, retention);
    if f in excess {
      ArchiveBelongs(db, f);
    } else {
      var g :| g in excess && f == Archive(g);
      ArchiveBelongs(db, g);
    }
    forall other | BelongsTo(other, f) ensures other == db {
      OneDatabase(other, db, f);
    }
  }

  // ---- The loops ---------------------------------------------------------------------------

  /** The names without these dumps and their archives. */
  ghost function Without(names: set<string>, dumps: set<string>): set<string> {
    names - dumps - Archives(dumps)
  }

  lemma WithoutOneMore(names: set<string>, dumps: set<string>, f: string)
    requires |f| >= |DUMP|
    ensures Without(names, dumps + {f}) == Without(names, dumps) - {f, Archive(f)}
  {
    assert Archives(dumps + {f}) == Archives(dumps) + {Archive(f)};
  }

  lemma StillThere(names: set<string>, db: string, dumps: set<string>, f: string)
    requires dumps <= Dumps(names, db) && f in Dumps(names, db) - dumps
    ensures f in Without(names, dumps)
  {
    forall g | g in dumps ensures Archive(g) != f {
      ArchiveBelongs(db, g);
    }
  }

  lemma OneMoreElement(list: seq<string>, from: nat, k: nat)
    requires from <= k < |list|
    ensures Elements(list[from..k + 1]) == Elements(list[from..k]) + {list[k]}
  {
    assert list[from..k + 1] == list[from..k] + [list[k]];
  }

  /** The backup claim: `path` is the directory and the database name. */
  class Claim {
    var names: set<string>

    method PruneDumps(path: string, keep: nat)
      requires keep > 0
      modifies this
      ensures names == Retained(old(names), path, keep)
    {
      var list := Enumerate(Dumps(names, path));
      var total := 0;
      for k := 0 to |list|
        invariant total == k
      {
        assert list[k] in list;
        if list[k] in names {
          total := total + 1;
        }
      }
      var drop := total - keep;
      var i := 0;
      AscendingIsSorted(list);
      ghost var n := Excess(|list|, keep);
      OldOnesComeFirst(names, path, list, keep);
      ghost var gone: set<string> := {};
      for k := 0 to |list|
        invariant i == k && gone == Elements(list[..if k < n then k else n])
        invariant names == Without(old(names), gone)
      {
        assert list[k] in list;
        assert forall f :: f in gone ==> f in list;
        Cut(list, if k < n then k else n, list[k]);
        StillThere(old(names), path, gone, list[k]);
        if list[k] in names {
          i := i + 1;
          if i <= drop {
            WithoutOneMore(old(names), gone, list[k]);
            OneMoreElement(list, 0, k);
            gone := gone + {list[k]};
            names := names - {list[k], Archive(list[k])};
          }
        }
      }
    }

    method Retain(path: string, retention: int)
      modifies this
      ensures names == Retained(old(names), path, retention)
    {
      if retention > 0 {
        PruneDumps(path, retention);
      }
    }
  }

  /** The bucket: `path` is the key prefix and the database name. */
  class Bucket {
    var keys: set<string>

    method Retain(path: string, retention: int)
      modifies this
      ensures keys == Retained(old(keys), path, retention)
    {
      if retention <= 0 {
        return;
      }
      var sorted := Enumerate(set k | k in keys && path + "-" <= k);
      var dumpKeys := DumpsDescending(sorted, path);
      assert forall f :: f in dumpKeys <==> f in Dumps(keys, path) by {
        forall f | f in Dumps(keys, path) ensures f in sorted {
          StartsWithPath(path, f);
        }
      }
      ghost var list := Reversed(dumpKeys);
      ReversedFacts(dumpKeys);
      OldOnesComeFirst(keys, path, list, retention);
      TailIsOldest(dumpKeys, retention);
      DeleteAfter(dumpKeys, path, retention);
    }

    method DeleteAfter(dumpKeys: seq<string>, path: string, retention: nat)
      requires forall f :: f in dumpKeys ==> IsDump(path, f)
      modifies this
      ensures keys == Without(old(keys), if retention < |dumpKeys| then Elements(dumpKeys[retention..]) else {})
    {
      ghost var gone: set<string> := {};
      var n := 0;
      for k := 0 to |dumpKeys|
        invariant n == k && keys == Without(old(keys), gone)
        invariant gone == if k <= retention then {} else Elements(dumpKeys[retention..k])
      {
        assert dumpKeys[k] in dumpKeys;
        n := n + 1;
        if n > retention {
          WithoutOneMore(old(keys), gone, dumpKeys[k]);
          OneMoreElement(dumpKeys, retention, k);
          gone := gone + {dumpKeys[k]};
          keys := keys - {dumpKeys[k]};
          keys := keys - {Archive(dumpKeys[k])};
        }
      }
    }
  }

  lemma StartsWithPath(path: string, f: string)
    requires IsDump(path, f)
    ensures path + "-" <= f
  {
    assert f[..|path| + 1] == path + "-";
  }

  ghost predicate Descending(s: seq<string>) {
    forall i, j :: 0 <= i < j < |s| ==> Less(s[j], s[i])
  }

  /** Walks the listing from its end, as `sort -r` does, and keeps what matches the pattern. */
  method DumpsDescending(sorted: seq<string>, path: string) returns (dumpKeys: seq<string>)
    requires Ascending(sorted)
    ensures Descending(dumpKeys)
    ensures forall f :: f in dumpKeys <==> f in sorted && IsDump(path, f)
  {
    dumpKeys := [];
    var i := |sorted|;
    while i > 0
      invariant 0 <= i <= |sorted| && Descending(dumpKeys)
      invariant forall f :: f in dumpKeys <==> f in sorted[i..] && IsDump(path, f)
      invariant forall f, k :: f in dumpKeys && 0 <= k < i ==> Less(sorted[k], f)
    {
      assert forall j :: 0 <= j < |dumpKeys| ==> dumpKeys[j] in dumpKeys;
      i := i - 1;
      assert sorted[i..] == [sorted[i]] + sorted[i + 1..];
      if IsDump(path, sorted[i]) {
        dumpKeys := dumpKeys + [sorted[i]];
      }
    }
  }

  function Reversed(s: seq<string>): seq<string> {
    seq(|s|, i requires 0 <= i < |s| => s[|s| - 1 - i])
  }

  lemma ReversedFacts(s: seq<string>)
    requires Descending(s)
    ensures Ascending(Reversed(s)) && forall f :: f in Reversed(s) <==> f in s
  {
    forall f | f in s ensures f in Reversed(s) {
      var i :| 0 <= i < |s| && s[i] == f;
      assert Reversed(s)[|s| - 1 - i] == f;
    }
  }

  lemma TailIsOldest(s: seq<string>, keep: nat)
    ensures Elements(Reversed(s)[..Excess(|s|, keep)]) == if keep < |s| then Elements(s[keep..]) else {}
  {
    if keep < |s| {
      var n, r := |s| - keep, Reversed(s);
      forall f ensures f in r[..n] <==> f in s[keep..] {
        if f in r[..n] {
          var i :| 0 <= i < n && r[..n][i] == f;
          assert s[keep..][|s| - 1 - i - keep] == f;
        }
        if f in s[keep..] {
          var i :| 0 <= i < n && s[keep..][i] == f;
          assert r[..n][|s| - 1 - (i + keep)] == f;
        }
      }
    }
  }

  // ---- The two loops agree -----------------------------------------------------------------

  ghost function Under(prefix: string, names: set<string>): set<string> {
    set f | f in names :: prefix + f
  }

  lemma {:induction false} UnderCount(prefix: string, names: set<string>)
    ensures |Under(prefix, names)| == |names|
  {
    if names != {} {
      var f :| f in names;
      UnderCount(prefix, names - {f});
      forall g | g in names && prefix + g == prefix + f ensures g == f {
        assert (prefix + g)[|prefix|..] == g && (prefix + f)[|prefix|..] == f;
      }
      assert Under(prefix, names) == Under(prefix, names - {f}) + {prefix + f};
      assert prefix + f !in Under(prefix, names - {f});
    } else {
      assert Under(prefix, names) == {};
    }
  }

  lemma UnderIsDump(prefix: string, db: string, f: string)
    ensures IsDump(prefix + db, prefix + f) <==> IsDump(db, f)
    ensures IsDump(db, f) ==> Archive(prefix + f) == prefix + Archive(f)
  {
    var p, g := prefix + db, prefix + f;
    if |f| == |db| + 22 {
      assert g[..|p|] == prefix + f[..|db|];
      assert (prefix + f[..|db|])[|prefix|..] == f[..|db|] && p[|prefix|..] == db;
      assert g[|p|] == f[|db|] && g[|p| + 1..|p| + 17] == f[|db| + 1..|db| + 17] && g[|p| + 17..] == f[|db| + 17..];
      assert g[..|g| - |DUMP|] == prefix + f[..|f| - |DUMP|];
    }
  }

  lemma UnderOldDumps(prefix: string, db: string, names: set<string>, keep: nat)
    ensures Dumps(Under(prefix, names), prefix + db) == Under(prefix, Dumps(names, db))
    ensures OldDumps(Under(prefix, names), prefix + db, keep) == Under(prefix, OldDumps(names, db, keep))
  {
    forall f ensures IsDump(prefix + db, prefix + f) <==> IsDump(db, f) {
      UnderIsDump(prefix, db, f);
    }
    assert Dumps(Under(prefix, names), prefix + db) == Under(prefix, Dumps(names, db));
    forall f | f in Dumps(names, db)
      ensures |Newer(Under(prefix, names), prefix + db, prefix + f)| == |Newer(names, db, f)|
    {
      forall g ensures Less(prefix + f, prefix + g) <==> Less(f, g) {
        LessAfterPrefix(prefix, f, g);
      }
      assert Newer(Under(prefix, names), prefix + db, prefix + f) == Under(prefix, Newer(names, db, f));
      UnderCount(prefix, Newer(names, db, f));
    }
  }

  /** The result does not depend on where the files live: the claim and the bucket, given the same
      names, keep the same names. */
  lemma LoopsAgree(prefix: string, db: string, names: set<string>, retention: int)
    ensures Retained(Under(prefix, names), prefix + db, retention) == Under(prefix, Retained(names, db, retention))
  {
    if retention > 0 {
      var excess := OldDumps(names, db, retention);
      UnderOldDumps(prefix, db, names, retention);
      forall f | f in excess ensures Archive(prefix + f) == prefix + Archive(f) {
        UnderIsDump(prefix, db, f);
      }
      assert Archives(Under(prefix, excess)) == Under(prefix, Archives(excess));
      UnderMinus(prefix, names, excess);
      UnderMinus(prefix, names - excess, Archives(excess));
    }
  }

  lemma UnderMinus(prefix: string, a: set<string>, b: set<string>)
    ensures Under(prefix, a - b) == Under(prefix, a) - Under(prefix, b)
  {
    forall f, g | prefix + f == prefix + g ensures f == g {
      assert (prefix + f)[|prefix|..] == f && (prefix + g)[|prefix|..] == g;
    }
  }
}
