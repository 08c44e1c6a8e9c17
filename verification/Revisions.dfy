/** The canonical text of the ready addons, whose hash decides whether the pods roll: it changes
    exactly when the set of (name, commit, modules) does. */
module Revisions {
  import opened Text

  datatype Addon = Addon(name: string, instance: string, ready: bool, commit: string, modules: seq<string>)

  // ---- The text ----------------------------------------------------------------------------

  function FilterReady(all: seq<Addon>, instance: string): seq<Addon> {
    if all == [] then []
    else
      var rest := FilterReady(all[..|all| - 1], instance);
      var a := all[|all| - 1];
      if a.instance == instance && a.ready then rest + [a] else rest
  }

  const MODULES := " modules="

  function Entry(a: Addon): string {
    a.name + "=" + a.commit + if a.modules == [] then "" else MODULES + Join(Sort(a.modules), ",")
  }

  function Entries(addons: seq<Addon>): seq<string> {
    seq(|addons|, i requires 0 <= i < |addons| => Entry(addons[i]))
  }

  function RevisionText(addons: seq<Addon>): string {
    Join(Sort(Entries(addons)), "\n")
  }

  method AddonRevisions(addons: seq<Addon>) returns (text: string)
    ensures text == RevisionText(addons)
  {
    var revisions: seq<string> := [];
    for i := 0 to |addons|
      invariant |revisions| == i && forall k :: 0 <= k < i ==> revisions[k] == Entry(addons[k])
    {
      var rev := addons[i].name + "=" + addons[i].commit;
      if |addons[i].modules| > 0 {
        rev := rev + MODULES + Join(Sort(addons[i].modules), ",");
        assert rev == Entry(addons[i]);
      } else {
        assert rev + "" == rev;
      }
      revisions := revisions + [rev];
    }
    assert revisions == Entries(addons);
    return Join(Sort(revisions), "\n");
  }

  method Ready(all: seq<Addon>, instance: string) returns (ready: seq<Addon>)
    ensures ready == FilterReady(all, instance)
    ensures forall a :: a in ready <==> a in all && a.ready && a.instance == instance
  {
    ready := [];
    for i := 0 to |all|
      invariant ready == FilterReady(all[..i], instance)
      invariant forall a :: a in ready <==> a in all[..i] && a.ready && a.instance == instance
    {
      assert all[..i + 1] == all[..i] + [all[i]];
      assert all[..i + 1][..i] == all[..i];
      if all[i].instance == instance && all[i].ready {
        ready := ready + [all[i]];
      }
    }
    assert all[..|all|] == all;
  }

  /** The filter keeps the order and every occurrence. */
  lemma {:induction false} FilterInOrder(a: seq<Addon>, b: seq<Addon>, instance: string)
    ensures FilterReady(a + b, instance) == FilterReady(a, instance) + FilterReady(b, instance)
    decreases |b|
  {
    if b == [] {
      assert a + b == a;
    } else {
      var n := |b| - 1;
      FilterInOrder(a, b[..n], instance);
      assert (a + b)[..|a + b| - 1] == a + b[..n] && (a + b)[|a + b| - 1] == b[n];
    }
  }

  // ---- What the text stands for ------------------------------------------------------------

  /** Object names, hex commits and module folder names, as validation leaves them. */
  ghost predicate Valid(a: Addon) {
    && '=' !in a.name && '\n' !in a.name
    && ' ' !in a.commit && '\n' !in a.commit
    && Distinct(a.modules) && forall m :: m in a.modules ==> ',' !in m && '\n' !in m
  }

  ghost predicate AllValid(addons: seq<Addon>) {
    && (forall a :: a in addons ==> Valid(a))
    && forall i, j :: 0 <= i < j < |addons| ==> addons[i].name != addons[j].name
  }

  ghost function Modules(a: Addon): set<string> {
    set m | m in a.modules
  }

  /** The revision of a set of addons: who, at which commit, with which modules. */
  ghost function Revision(addons: seq<Addon>): set<(string, string, set<string>)> {
    set a | a in addons :: (a.name, a.commit, Modules(a))
  }

  // ---- Proofs ------------------------------------------------------------------------------

  lemma SameModules(a: Addon, b: Addon)
    requires Valid(a) && Valid(b)
    ensures Sort(a.modules) == Sort(b.modules) <==> Modules(a) == Modules(b)
  {
    SortCanonical(a.modules, b.modules);
    SameElements(a.modules, b.modules);
    assert Modules(a) == Modules(b) <==> forall x :: x in a.modules <==> x in b.modules by {
      if Modules(a) == Modules(b) {
        forall x ensures x in a.modules <==> x in b.modules {
          assert x in Modules(a) <==> x in Modules(b);
        }
      }
    }
  }

  lemma JoinedModules(a: Addon, b: Addon)
    requires Valid(a) && Valid(b) && a.modules != [] && b.modules != []
    requires Join(Sort(a.modules), ",") == Join(Sort(b.modules), ",")
    ensures Sort(a.modules) == Sort(b.modules)
  {
    SortElements(a.modules);
    SortElements(b.modules);
    SplitJoin(Sort(a.modules), ',');
    SplitJoin(Sort(b.modules), ',');
  }

  function Tail(a: Addon): string {
    if a.modules == [] then "" else MODULES + Join(Sort(a.modules), ",")
  }

  lemma SpaceInTail(a: Addon)
    requires Valid(a)
    ensures ' ' in a.commit + Tail(a) <==> a.modules != []
  {
    if a.modules != [] {
      assert (a.commit + Tail(a))[|a.commit|] == ' ';
    }
  }

  lemma TailStarts(a: Addon)
    requires a.modules != []
    ensures Tail(a) != "" && a.commit + Tail(a) == a.commit + [' '] + Tail(a)[1..] && Tail(a) == [' '] + Tail(a)[1..]
  {
    assert Tail(a)[0] == MODULES[0] == ' ';
  }

  lemma SameTail(a: Addon, b: Addon)
    requires Valid(a) && Valid(b) && a.commit + Tail(a) == b.commit + Tail(b)
    ensures a.commit == b.commit && Tail(a) == Tail(b)
  {
    SpaceInTail(a);
    SpaceInTail(b);
    if a.modules == [] {
      assert a.commit + Tail(a) == a.commit && b.commit + Tail(b) == b.commit;
    } else {
      TailStarts(a);
      TailStarts(b);
      FirstSeparator(a.commit, Tail(a)[1..], b.commit, Tail(b)[1..], ' ');
    }
  }

  lemma EntryParts(a: Addon)
    ensures Entry(a) == a.name + ['='] + (a.commit + Tail(a))
  {
  }

  lemma TailModules(a: Addon, b: Addon)
    requires Valid(a) && Valid(b)
    ensures Tail(a) == Tail(b) <==> Sort(a.modules) == Sort(b.modules)
  {
    SortElements(a.modules);
    SortElements(b.modules);
    if Tail(a) == Tail(b) && a.modules != [] && b.modules != [] {
      assert Tail(a)[|MODULES|..] == Tail(b)[|MODULES|..];
      JoinedModules(a, b);
    }
  }

  /** An entry names its addon, its commit and its modules. */
  lemma EntryIsFaithful(a: Addon, b: Addon)
    requires Valid(a) && Valid(b)
    ensures Entry(a) == Entry(b) <==> a.name == b.name && a.commit == b.commit && Modules(a) == Modules(b)
  {
    SameModules(a, b);
    TailModules(a, b);
    EntryParts(a);
    EntryParts(b);
    if Entry(a) == Entry(b) {
      FirstSeparator(a.name, a.commit + Tail(a), b.name, b.commit + Tail(b), '=');
      SameTail(a, b);
    }
  }

  lemma EntriesAreLines(addons: seq<Addon>)
    requires AllValid(addons)
    ensures Distinct(Entries(addons))
    ensures forall e :: e in Entries(addons) ==> '\n' !in e && e != ""
  {
    forall i, j | 0 <= i < j < |addons| ensures Entries(addons)[i] != Entries(addons)[j] {
      assert addons[i] in addons && addons[j] in addons;
      EntryIsFaithful(addons[i], addons[j]);
    }
    forall e | e in Entries(addons) ensures '\n' !in e && e != "" {
      var i :| 0 <= i < |addons| && Entries(addons)[i] == e;
      OneLine(addons[i]);
    }
  }

  lemma OneLine(a: Addon)
    requires Valid(a)
    ensures '\n' !in Entry(a) && Entry(a) != ""
  {
    SortElements(a.modules);
    JoinLacks(Sort(a.modules), ",", '\n');
    assert Entry(a)[|a.name|] == '=';
  }

  lemma {:induction false} JoinLacks(parts: seq<string>, sep: string, c: char)
    requires c !in sep && forall p :: p in parts ==> c !in p
    ensures c !in Join(parts, sep)
  {
    if |parts| > 1 {
      JoinLacks(parts[1..], sep, c);
    }
  }

  lemma EmptyText(s: seq<string>)
    requires forall e :: e in s ==> e != ""
    ensures Join(s, "\n") == "" <==> s == []
  {
    if s != [] {
      assert s[0] in s;
    }
  }

  /** The sorted lines can be read back from the text. */
  lemma TextIsFaithful(s: seq<string>, t: seq<string>)
    requires forall e :: e in s || e in t ==> '\n' !in e && e != ""
    ensures Join(s, "\n") == Join(t, "\n") <==> s == t
  {
    EmptyText(s);
    EmptyText(t);
    if s != [] {
      SplitJoin(s, '\n');
    }
    if t != [] {
      SplitJoin(t, '\n');
    }
  }

  lemma SameEntries(a: seq<Addon>, b: seq<Addon>)
    requires AllValid(a) && AllValid(b)
    ensures (forall e :: e in Entries(a) <==> e in Entries(b)) <==> Revision(a) == Revision(b)
  {
    if forall e :: e in Entries(a) <==> e in Entries(b) {
      EntriesInclude(a, b);
      EntriesInclude(b, a);
    } else {
      RevisionIncludes(a, b);
      RevisionIncludes(b, a);
    }
  }

  lemma EntriesInclude(a: seq<Addon>, b: seq<Addon>)
    requires AllValid(a) && AllValid(b) && forall e :: e in Entries(a) ==> e in Entries(b)
    ensures Revision(a) <= Revision(b)
  {
    forall x | x in a ensures (x.name, x.commit, Modules(x)) in Revision(b) {
      var i :| 0 <= i < |a| && a[i] == x;
      assert Entries(a)[i] == Entry(x) && Entry(x) in Entries(b);
      var j :| 0 <= j < |b| && Entries(b)[j] == Entry(x);
      assert b[j] in b;
      EntryIsFaithful(x, b[j]);
    }
  }

  lemma RevisionIncludes(a: seq<Addon>, b: seq<Addon>)
    requires AllValid(a) && AllValid(b)
    ensures Revision(a) <= Revision(b) ==> forall e :: e in Entries(a) ==> e in Entries(b)
  {
    if Revision(a) <= Revision(b) {
      forall e | e in Entries(a) ensures e in Entries(b) {
        var i :| 0 <= i < |a| && Entries(a)[i] == e;
        assert a[i] in a && (a[i].name, a[i].commit, Modules(a[i])) in Revision(b);
        var y :| y in b && (y.name, y.commit, Modules(y)) == (a[i].name, a[i].commit, Modules(a[i]));
        EntryIsFaithful(a[i], y);
        var j :| 0 <= j < |b| && b[j] == y;
        assert Entries(b)[j] == e;
      }
    }
  }

  /** The hashed text is the same exactly when the revisions are: the order of addons and modules does
      not matter, and any change of a commit or a module set shows. */
  lemma TextChangesWithRevision(a: seq<Addon>, b: seq<Addon>)
    requires AllValid(a) && AllValid(b)
    ensures RevisionText(a) == RevisionText(b) <==> Revision(a) == Revision(b)
  {
    EntriesAreLines(a);
    EntriesAreLines(b);
    SortElements(Entries(a));
    SortElements(Entries(b));
    TextIsFaithful(Sort(Entries(a)), Sort(Entries(b)));
    SortCanonical(Entries(a), Entries(b));
    SameElements(Entries(a), Entries(b));
    SameEntries(a, b);
  }
}
