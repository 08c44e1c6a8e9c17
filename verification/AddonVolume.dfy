/** The shared addons volume and the single commands that the sync and cleanup scripts run on it.

    A module is visible to Odoo as an entry directly under the mount, normally a symlink into the
    release store of the addon that provides it. Each addon has one store: its releases (one
    directory per commit), the `.modules` manifest and its temporary copy. `order` lists the
    releases the way `ls -1t` does, newest modification first: the clock is strictly increasing,
    so a command that changes a release directory moves it to the front. */
module AddonVolume {
  import opened Options

  type Name = string
  type Addon = string
  type Commit = string
  type File = string

  const GIT_DIR: File := ".git"

  /** An entry directly under the mount: a module folder, or the `.<name>.tmp` switch link. */
  datatype Key = Module(name: Name) | Switch(name: Name)

  datatype Entry =
    | Link(addon: Addon, commit: Commit, folder: Name)  // symlink to .releases/<addon>/<commit>/<folder>
    | OtherLink(target: string)                         // symlink to anywhere else
    | Dir
    | PlainFile

  /** `copies` are the finished module folders, `partials` the `.<name>.partial` ones. */
  datatype Release = Release(copies: map<Name, set<File>>, partials: map<Name, set<File>>)

  datatype Store = Store(
    order: seq<Commit>,
    releases: map<Commit, Release>,
    manifest: Option<seq<Name>>,
    manifestTmp: Option<seq<Name>>)

  datatype Volume = Volume(top: map<Key, Entry>, stores: map<Addon, Store>)

  const NO_STORE := Store([], map[], None, None)
  const NO_RELEASE := Release(map[], map[])

  // ---- Reading -------------------------------------------------------------------------

  function StoreOf(v: Volume, a: Addon): Store {
    if a in v.stores then v.stores[a] else NO_STORE
  }

  function ReleaseOf(s: Store, c: Commit): Release {
    if c in s.releases then s.releases[c] else NO_RELEASE
  }

  /** What a sync copies to its PREV scratch file. */
  function ManifestOf(v: Volume, a: Addon): seq<Name> {
    if StoreOf(v, a).manifest.Some? then StoreOf(v, a).manifest.value else []
  }

  /** `[ -d "$REL/$name" ]` */
  predicate Holds(v: Volume, a: Addon, c: Commit, n: Name) {
    n in ReleaseOf(StoreOf(v, a), c).copies
  }

  predicate IsOwn(e: Entry, a: Addon) {
    e.Link? && e.addon == a
  }

  /** `k` is a symlink into the release store of `a`. */
  predicate OwnLink(v: Volume, a: Addon, k: Key) {
    k in v.top && IsOwn(v.top[k], a)
  }

  /** The module `n` is provided by the release store of another addon. */
  predicate Conflicts(v: Volume, a: Addon, n: Name) {
    Module(n) in v.top && v.top[Module(n)].Link? && v.top[Module(n)].addon != a
  }

  // ---- Sequences of commits --------------------------------------------------------------

  function Without<T(==)>(s: seq<T>, x: T): seq<T> {
    if s == [] then [] else if s[0] == x then Without(s[1..], x) else [s[0]] + Without(s[1..], x)
  }

  function ToFront<T(==)>(s: seq<T>, x: T): seq<T> {
    [x] + Without(s, x)
  }

  function KeepTwo<T>(s: seq<T>): seq<T> {
    if |s| <= 2 then s else s[..2]
  }

  ghost predicate NoDup<T>(s: seq<T>) {
    forall i, j :: 0 <= i < j < |s| ==> s[i] != s[j]
  }

  /** `order` enumerates the releases. */
  ghost predicate ValidStore(s: Store) {
    && NoDup(s.order)
    && forall c :: c in s.releases <==> c in s.order
  }

  ghost predicate ValidVolume(v: Volume) {
    forall a :: a in v.stores ==> ValidStore(v.stores[a])
  }

  // ---- Commands --------------------------------------------------------------------------

  function WithStore(v: Volume, a: Addon, s: Store): Volume {
    v.(stores := v.stores[a := s])
  }

  /** Writing a directory entry of the release `c` also makes it the newest one. */
  function WithRelease(v: Volume, a: Addon, c: Commit, r: Release): Volume {
    var s := StoreOf(v, a);
    WithStore(v, a, s.(order := ToFront(s.order, c), releases := s.releases[c := r]))
  }

  /** Writing below a directory of the release leaves the release's own time alone. */
  function WithPartial(v: Volume, a: Addon, c: Commit, n: Name, files: set<File>): Volume {
    var s := StoreOf(v, a);
    var r := ReleaseOf(s, c);
    WithStore(v, a, s.(releases := s.releases[c := r.(partials := r.partials[n := files])]))
  }

  /** `mkdir -p "$REL"` */
  function MakeRelease(v: Volume, a: Addon, c: Commit): Volume {
    if c in StoreOf(v, a).releases then v else WithRelease(v, a, c, NO_RELEASE)
  }

  /** `rm -rf "$REL/.$name.partial"` */
  function RemovePartial(v: Volume, a: Addon, c: Commit, n: Name): Volume {
    var r := ReleaseOf(StoreOf(v, a), c);
    if n in r.partials then WithRelease(v, a, c, r.(partials := r.partials - {n})) else v
  }

  /** `cp -a "$src" "$REL/.$name.partial"`, its first effect: the folder itself. */
  function BeginPartial(v: Volume, a: Addon, c: Commit, n: Name): Volume {
    var r := ReleaseOf(StoreOf(v, a), c);
    WithRelease(v, a, c, r.(partials := r.partials[n := {}]))
  }

  function PartialFiles(v: Volume, a: Addon, c: Commit, n: Name): set<File> {
    var r := ReleaseOf(StoreOf(v, a), c);
    if n in r.partials then r.partials[n] else {}
  }

  /** `cp -a`, one more file. */
  function CopyFile(v: Volume, a: Addon, c: Commit, n: Name, f: File): Volume {
    WithPartial(v, a, c, n, PartialFiles(v, a, c, n) + {f})
  }

  /** `rm -rf "$REL/.$name.partial/.git"` */
  function RemoveGit(v: Volume, a: Addon, c: Commit, n: Name): Volume {
    WithPartial(v, a, c, n, PartialFiles(v, a, c, n) - {GIT_DIR})
  }

  /** `mv "$REL/.$name.partial" "$REL/$name"` */
  function FinishPartial(v: Volume, a: Addon, c: Commit, n: Name): Volume {
    var r := ReleaseOf(StoreOf(v, a), c);
    WithRelease(v, a, c, Release(r.copies[n := PartialFiles(v, a, c, n)], r.partials - {n}))
  }

  /** `if [ -d "$target" ] && [ ! -L "$target" ]; then rm -rf "$target"; fi` */
  function DropDir(v: Volume, n: Name): Volume {
    if Module(n) in v.top && v.top[Module(n)].Dir? then v.(top := v.top - {Module(n)}) else v
  }

  /** `ln -sfn "$REL/$name" "$ADDONS/.$name.tmp"` */
  function MakeSwitch(v: Volume, a: Addon, c: Commit, n: Name): Volume {
    v.(top := v.top[Switch(n) := Link(a, c, n)])
  }

  /** `mv -T "$ADDONS/.$name.tmp" "$target"` */
  function ApplySwitch(v: Volume, n: Name): Volume {
    if Switch(n) in v.top then v.(top := v.top[Module(n) := v.top[Switch(n)]] - {Switch(n)}) else v
  }

  /** `touch "$REL"` */
  function Touch(v: Volume, a: Addon, c: Commit): Volume {
    WithRelease(v, a, c, ReleaseOf(StoreOf(v, a), c))
  }

  /** One entry of the mount is removed if it still points into the store of `a`. */
  function RemoveOwnLink(v: Volume, a: Addon, k: Key): Volume {
    if OwnLink(v, a, k) then v.(top := v.top - {k}) else v
  }

  /** `cp "$MODLIST" "$RELROOT/.modules.tmp"` */
  function WriteManifest(v: Volume, a: Addon, names: seq<Name>): Volume {
    WithStore(v, a, StoreOf(v, a).(manifestTmp := Some(names)))
  }

  /** `mv "$RELROOT/.modules.tmp" "$RELROOT/.modules"` */
  function SwitchManifest(v: Volume, a: Addon): Volume {
    var s := StoreOf(v, a);
    if s.manifestTmp.Some? then WithStore(v, a, s.(manifest := s.manifestTmp, manifestTmp := None)) else v
  }

  /** `ls -1t "$RELROOT" | tail -n +3` */
  function Outdated(v: Volume, a: Addon): seq<Commit> {
    var o := StoreOf(v, a).order;
    if |o| <= 2 then [] else o[2..]
  }

  /** `rm -rf "$RELROOT/$old"` */
  function RemoveRelease(v: Volume, a: Addon, c: Commit): Volume {
    var s := StoreOf(v, a);
    WithStore(v, a, s.(order := Without(s.order, c), releases := s.releases - {c}))
  }

  /** `rm -rf "$RELROOT"` */
  function RemoveStore(v: Volume, a: Addon): Volume {
    v.(stores := v.stores - {a})
  }

  // ---- What Odoo sees --------------------------------------------------------------------

  /** The link `k` of addon `a` resolves to a finished folder of its store. */
  predicate Resolves(v: Volume, a: Addon, k: Key) {
    OwnLink(v, a, k) && Holds(v, a, v.top[k].commit, v.top[k].folder)
  }

  /** Every module Odoo sees through the store of `a` resolves. */
  ghost predicate AllResolve(v: Volume, a: Addon) {
    forall n :: OwnLink(v, a, Module(n)) ==> Resolves(v, a, Module(n))
  }

  // ---- Facts about the newest-first list ---------------------------------------------------

  lemma {:induction false} WithoutMembers<T>(s: seq<T>, x: T)
    ensures forall y :: y in Without(s, x) <==> y in s && y != x
    ensures NoDup(s) ==> NoDup(Without(s, x))
    ensures x !in s ==> Without(s, x) == s
    ensures |Without(s, x)| <= |s|
  {
    if s != [] {
      WithoutMembers(s[1..], x);
      assert s == [s[0]] + s[1..];
      var r := Without(s[1..], x);
      assert forall i :: 0 <= i < |r| ==> r[i] in r;
    }
  }

  lemma WithoutToFront<T>(s: seq<T>, x: T)
    ensures Without(ToFront(s, x), x) == Without(s, x)
  {
    WithoutMembers(s, x);
    WithoutMembers(Without(s, x), x);
    assert ToFront(s, x)[1..] == Without(s, x);
  }
}
